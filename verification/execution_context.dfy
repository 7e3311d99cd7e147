/** The request-scoped execution-context stack the model provider pushes to
    and pops from, and the context-scope slot it swaps. Both are confined to
    one request, so they are modelled together as one immutable `State`
    value threaded through every call. */
module ExecutionContext {
  import opened Common

  /** One in-flight resolution: anchored either at a path (possibly
      relative until normalised) or at a resource. Either may be null. */
  datatype Frame = Frame(path: Option<Path>, resource: Option<ResourceId>)

  /** The per-request state the provider touches: the execution-context
      stack (last element is the top) and the context provider currently
      installed in the context scope. */
  datatype State = State(stack: seq<Frame>, active: ProviderId)

  /** `ExecutionContextStack.getAbsolutePath`: its body is not part of this
      model, so it is a parameter; it may consult the stack it is asked on. */
  type AbsolutePath = (seq<Frame>, Path) -> Path

  /** The frame that is actually pushed: a frame with no resource and a
      non-null path has its path made absolute against the current stack;
      every other frame is pushed as it was built. */
  function Normalise(abs: AbsolutePath, stack: seq<Frame>, f: Frame): (g: Frame)
    ensures g.resource == f.resource
    ensures f.resource.Some? || f.path.None? ==> g == f
    ensures f.resource.None? && f.path.Some? ==> g.path == Some(abs(stack, f.path.value))
  {
    if f.resource.None? && f.path.Some? then f.(path := Some(abs(stack, f.path.value))) else f
  }

  /** `push`: the frame becomes the new top. */
  function Push(stack: seq<Frame>, f: Frame): (r: seq<Frame>)
    ensures |r| == |stack| + 1 && r[|stack|] == f && r[..|stack|] == stack
  {
    stack + [f]
  }

  /** `pop`: drops the top frame; `None` is the empty-stack exception. */
  function Pop(stack: seq<Frame>): (r: Option<seq<Frame>>)
    ensures r.None? <==> |stack| == 0
    ensures r.Some? ==> |r.value| + 1 == |stack| && r.value == stack[..|r.value|]
  {
    if |stack| == 0 then None else Some(stack[..|stack| - 1])
  }
}
