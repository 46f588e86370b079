/**
 * The values the B3 codec moves across a process boundary: a full trace
 * identity, a context-free sampling decision, and the union of the two that
 * extraction returns.
 */
module TraceContexts {
  import opened Wrappers
  import opened LowerHex

  /**
   * One point in a trace. `traceIdHigh` is zero for a 64-bit trace id;
   * `sampled` is tri-state (None: not yet decided); `debug` forces sampling.
   * The propagated extra fields and the local root id are not part of the model.
   */
  datatype TraceContext = TraceContext(
    traceIdHigh: U64,
    traceId: U64,
    spanId: U64,
    parentId: Option<U64>,
    sampled: Option<bool>,
    debug: bool)
  {
    /** What TraceContext's builder guarantees of every context it builds. */
    predicate Valid() {
      && traceId != 0
      && spanId != 0
      && (parentId.Some? ==> parentId.value != 0)
      && (debug ==> sampled == Some(true))
    }
  }

  /** The canonical sampling-decision singletons. */
  datatype SamplingFlags = Empty | NotSampled | Sampled | Debug
  {
    function sampled(): (r: Option<bool>)
      ensures r.None? <==> this == Empty
      ensures r == Some(true) <==> this in {Sampled, Debug}
    {
      match this
      case Empty => None
      case NotSampled => Some(false)
      case Sampled => Some(true)
      case Debug => Some(true)
    }

    function debug(): bool {
      this == Debug
    }
  }

  /** Either a full context or only a sampling decision, as a parse yields. */
  datatype TraceContextOrSamplingFlags =
    | FromContext(context: TraceContext)
    | FromFlags(samplingFlags: SamplingFlags)
}
