# Slice model provider and usage statistics, in Dafny

This project models two pieces of the Slice content-model injection layer
for Apache Sling:

- **`SliceModelProvider`**: the resolution pipeline behind every
  `get`. A `get` builds an execution-context frame for a path or a resource.
  It saves the active context provider and installs the one the provider
  captured when it was constructed. A path-only frame is made absolute
  against the execution-context stack, and the frame is pushed. The
  injector is then asked for the model. Whether the injector returns or
  throws, the frame is popped and the saved context provider is restored.
  The by-class-name overload fails with class-not-found before any of this
  happens. `getList` runs `get` over the paths in order.
- **`ModelUsageData`**: one node of the usage-statistics tree. It holds a
  count, a total time in nanoseconds and a map of sub-model nodes, with
  `addTimeMeasurement`, `getCount`, `getTotalTime`, `add`, `copy` and
  `clearSubModels`.

The per-request state the provider touches is one immutable value
`State(stack, active)`: the execution-context stack, top last, and the
context provider installed in the context scope. Every operation is a pure
function from one state to the next. The injector is opaque. What it does
for one call is given as a finite tree: an `Injection` lists the nested
`get` requests the injector makes while building the model, in order, and
then says whether it produces an instance or throws. Each nested request
carries its own `Injection`. The main guarantee is proved by induction on
that tree: every `get` returns what a state-independent reference
(`Verdict`) says, namely the injector's instance or the first failure,
propagated unchanged; and every `get` leaves the stack and the active
provider exactly as it found them, and never pops an empty stack. This holds whether the call
succeeds or fails, and however deeply the injector re-enters `get`.
`Get`'s contract states it, and the proof is the contracts of the mutually
recursive `Bracket`, `Inject` and `GetAll`. Each run also records a trace
of what the injector saw each time it was entered: the key, the stack and
the active provider.

Files:

- `common.dfy`: `Option` for Java's nullable references, and the opaque
  identities (classes, paths, resources, context providers, instances).
- `execution_context.dfy`: frames, the per-request `State`, frame
  normalisation, and push/pop. `ExecutionContextStack` and
  `ExecutionContextImpl` are not part of this model. Their push and pop
  are modelled as list operations. `getAbsolutePath` is a function
  parameter that may read the stack.
- `slice_model_provider.dfy`: module `SliceModelProvider` (the three `get`
  overloads, the private bracket, the injector tree) and module
  `SliceModelLists` (both `getList` overloads as the source's loop).
- `provider_properties.dfy`: what the injector sees, frame normalisation,
  and `getList` order, length and failure propagation.
- `model_usage_data.dfy`: module `Monitoring` with the statistics node.

## Model

| member | source | states |
|---|---|---|
| `ExecutionContext.Normalise` | slice-core/src/main/java/com/cognifide/slice/core/internal/provider/SliceModelProvider.java:127-129 | a frame's path is made absolute against the stack only when the frame has no resource and a non-null path; otherwise the frame is pushed unchanged, and the resource is never altered |
| `ExecutionContext.Push` | slice-core/src/main/java/com/cognifide/slice/core/internal/provider/SliceModelProvider.java:131 | the pushed frame becomes the top of the stack, with the rest of the stack unchanged below it |
| `ExecutionContext.Pop` | slice-core/src/main/java/com/cognifide/slice/core/internal/provider/SliceModelProvider.java:135 | `pop` fails exactly on an empty stack, and otherwise removes the top frame and keeps everything below it |
| `SliceModelProvider.KeyFor` | slice-core/src/main/java/com/cognifide/slice/core/internal/provider/SliceModelProvider.java:108-120 | a request has no key exactly when it is a by-class-name request whose name the class-to-key mapper does not know; a request given a class gets `Key.get(type)`, the class's unqualified key, and a known name gets the mapper's key |
| `SliceModelProvider.FrameFor` | slice-core/src/main/java/com/cognifide/slice/core/internal/provider/SliceModelProvider.java:89-113 | the frame built for a request is anchored at its path, with no resource, for the two overloads given a path, and at its resource, with no path, for the overload given a resource |
| `SliceModelProvider.Get` | slice-core/src/main/java/com/cognifide/slice/core/internal/provider/SliceModelProvider.java:82-138 | the result is the instance the injector produces, or the first failure among its nested requests and its own exception, propagated unchanged, whatever state the call starts from; after any `get`, successful or failed and however deeply it re-enters itself through the injector, the stack and active context provider equal their values before the call; the empty-stack failure never arises; an unmapped class name fails with class-not-found, changes no state and never enters the injector |
| `SliceModelProvider.Bracket` | slice-core/src/main/java/com/cognifide/slice/core/internal/provider/SliceModelProvider.java:123-138 | the `finally` block passes the injector's result or exception through unchanged, and on both exit paths the push/install and pop/restore leave the state the bracket started from, so the `pop` never meets an empty stack and the restore is never skipped |
| `SliceModelProvider.Inject` | slice-core/src/main/java/com/cognifide/slice/core/internal/provider/SliceModelProvider.java:131-133 | the injector is entered once with the key and the bracket's state; its result is the first nested request's failure if one fails, else the instance it produces or the exception it throws; it ends in the bracket's state (the state its nested requests start from is stated by `ProviderProperties.NestedRequestsSeeBracketFrame`) |
| `SliceModelProvider.GetAll` | slice-core/src/main/java/com/cognifide/slice/core/internal/provider/SliceModelProvider.java:151-155 | a sequence of `get`s run in order fails exactly when some request's own result is a failure, with the first such error; otherwise it yields one model per request, each that request's own result; the state is restored either way |
| `SliceModelLists.GetAllAppend` | slice-core/src/main/java/com/cognifide/slice/core/internal/provider/SliceModelProvider.java:151-157 | resolving a list of paths in two parts is resolving the first part and then, unless it failed, the second, from the same state |
| `SliceModelLists.GetList` | slice-core/src/main/java/com/cognifide/slice/core/internal/provider/SliceModelProvider.java:144-158 | a null iterator gives an empty list, an unchanged state and no injector entry; otherwise the loop's result, final state and injector entries equal those of resolving the paths in order and stopping at the first failure |
| `SliceModelLists.GetListOfArray` | slice-core/src/main/java/com/cognifide/slice/core/internal/provider/SliceModelProvider.java:164-169 | a null array gives an empty list without entering the injector; any other array resolves as the iterator overload does |
| `ProviderProperties.InjectorSeesOwnFrame` | slice-core/src/main/java/com/cognifide/slice/core/internal/provider/SliceModelProvider.java:124-133 | when the injector runs for a call, the top of the stack is that call's normalised frame on the caller's stack, and the active context provider is the one captured at construction |
| `ProviderProperties.PushedFrame` | slice-core/src/main/java/com/cognifide/slice/core/internal/provider/SliceModelProvider.java:98-131 | the frame pushed for a path request holds the absolute form of a non-null path, or no path when the path is null; a resource request pushes its resource frame as it is |
| `ProviderProperties.UnknownClassNameTouchesNothing` | slice-core/src/main/java/com/cognifide/slice/core/internal/provider/SliceModelProvider.java:108-111 | `get(className, path)` with an unmapped name fails with class-not-found for that name, leaves the state unchanged and never enters the injector |
| `ProviderProperties.InjectionsRunAboveCaller` | slice-core/src/main/java/com/cognifide/slice/core/internal/provider/SliceModelProvider.java:124-137 | at every injector entry a `get` causes, at any depth of re-entry, the caller's stack lies strictly below the top and the captured context provider is active |
| `ProviderProperties.BracketRunsAboveCaller` | slice-core/src/main/java/com/cognifide/slice/core/internal/provider/SliceModelProvider.java:124-131 | inside the bracket every injector entry sees the caller's stack strictly below the top, with the bracket's pushed (normalised) frame directly above it, under the captured context provider |
| `ProviderProperties.NestedRequestsSeeBracketFrame` | slice-core/src/main/java/com/cognifide/slice/core/internal/provider/SliceModelProvider.java:127-133 | while the injector runs, each nested request it reaches starts from the bracket's state: it enters the injector with its own frame, normalised against the enclosing call's frame, pushed directly on that frame, under the captured context provider |
| `ProviderProperties.InjectRunsAtOrAbove` | slice-core/src/main/java/com/cognifide/slice/core/internal/provider/SliceModelProvider.java:133 | the injector's own entry and those of its nested requests all see at least the stack it was entered with, under the captured context provider |
| `ProviderProperties.GetAllRunsAboveCaller` | slice-core/src/main/java/com/cognifide/slice/core/internal/provider/SliceModelProvider.java:151-155 | every injector entry of a sequence of `get`s sees the starting stack strictly below the top |
| `ProviderProperties.GetEntries` | slice-core/src/main/java/com/cognifide/slice/core/internal/provider/SliceModelProvider.java:123-138 | a `get` enters the injector exactly for the keys a state-independent reference lists: none for an unmapped class name, else its own key and then, in order and at every depth, those of its nested requests up to and including the first that fails |
| `ProviderProperties.InjectEntries` | slice-core/src/main/java/com/cognifide/slice/core/internal/provider/SliceModelProvider.java:131-133 | the injector's own entry comes first, followed by the entries of its nested requests up to the first failure |
| `ProviderProperties.GetAllEntries` | slice-core/src/main/java/com/cognifide/slice/core/internal/provider/SliceModelProvider.java:151-155 | a sequence of `get`s enters the injector for each request's entries in order, and for none after the first request that fails |
| `ProviderProperties.GetAllSucceeds` | slice-core/src/main/java/com/cognifide/slice/core/internal/provider/SliceModelProvider.java:151-157 | a sequence of `get`s succeeds exactly when each one, run alone from the same state, succeeds; it then returns their models in input order and has entered the injector for every one |
| `ProviderProperties.GetAllStopsAtFirstFailure` | slice-core/src/main/java/com/cognifide/slice/core/internal/provider/SliceModelProvider.java:151-154 | a failing sequence fails at some index k: all earlier requests succeeded, the k-th failed with the propagated error, and nothing after k entered the injector |
| `ProviderProperties.GetListResult` | slice-core/src/main/java/com/cognifide/slice/core/internal/provider/SliceModelProvider.java:144-158 | `getList` returns exactly one model per path in input order, each the one `get(type, path)` gives; or the first failure, with no later path resolved; the state is restored either way |
| `Monitoring.Fresh` | slice-core/src/main/java/com/cognifide/slice/core/internal/monitoring/ModelUsageData.java:28-32 | a new node has count 0, total time 0 and an empty sub-model map |
| `Monitoring.AddTimeMeasurement` | slice-core/src/main/java/com/cognifide/slice/core/internal/monitoring/ModelUsageData.java:34-37 | a measurement raises the count by exactly one and the total time by exactly the measurement, and leaves the sub-models alone |
| `Monitoring.TotalTimeMillis` | slice-core/src/main/java/com/cognifide/slice/core/internal/monitoring/ModelUsageData.java:43-45 | the reported total is the nanosecond total divided by 1,000,000 and truncated toward zero: for a non-negative total, the greatest whole number of milliseconds not above it |
| `Monitoring.Add` | slice-core/src/main/java/com/cognifide/slice/core/internal/monitoring/ModelUsageData.java:55-58 | merging adds the other node's count and total time to this node's and keeps this node's sub-models |
| `Monitoring.Copy` | slice-core/src/main/java/com/cognifide/slice/core/internal/monitoring/ModelUsageData.java:60-65 | a copy has the original's count and total time and no sub-models |
| `Monitoring.ClearSubModels` | slice-core/src/main/java/com/cognifide/slice/core/internal/monitoring/ModelUsageData.java:67-69 | clearing empties the sub-model map and keeps count and total time |
| `Monitoring.MeasurementsAccumulate` | slice-core/src/main/java/com/cognifide/slice/core/internal/monitoring/ModelUsageData.java:34-37 | k measurements raise the count by k and the total by their sum, whatever the starting node |
| `Monitoring.MeasurementsFromFresh` | slice-core/src/main/java/com/cognifide/slice/core/internal/monitoring/ModelUsageData.java:28-37 | a new node starts at count 0, total 0 and no sub-models, so after n measurements it holds count n and their exact sum |
| `Monitoring.AddMergesHistories` | slice-core/src/main/java/com/cognifide/slice/core/internal/monitoring/ModelUsageData.java:55-58 | merging the nodes of two measurement histories equals the node of the two histories recorded one after the other |
| `Monitoring.CopyIsSnapshot` | slice-core/src/main/java/com/cognifide/slice/core/internal/monitoring/ModelUsageData.java:60-65 | measurements recorded on the original after a copy leave the copy's counters at their values when the copy was taken |
| `Monitoring.ClearCommutesWithMeasurements` | slice-core/src/main/java/com/cognifide/slice/core/internal/monitoring/ModelUsageData.java:67-69 | clearing the sub-models before or after recording measurements gives the same node |
| `Monitoring.ThreeMeasurements` | slice-core/src/main/java/com/cognifide/slice/core/internal/monitoring/ModelUsageData.java:34-45 | measurements of 1, 2 and 3 ms give count 3, a total of 6,000,000 ns and a reported total of 6 ms |
| `Monitoring.AddBoxedTimeMeasurement` | slice-core/src/main/java/com/cognifide/slice/core/internal/monitoring/ModelUsageData.java:34-37 | as written, a null measurement throws, but the count has already gone up by one while the total stays put |
| `Monitoring.NullMeasurementIsHalfRecorded` | slice-core/src/main/java/com/cognifide/slice/core/internal/monitoring/ModelUsageData.java:34-37 | a null measurement on a new node throws and leaves count 1 with total 0 |
| `Monitoring.AddCheckedTimeMeasurement` | slice-core/src/main/java/com/cognifide/slice/core/internal/monitoring/ModelUsageData.java:34-37 | with the argument checked first, a null measurement throws and changes nothing; any other measurement is recorded as `addTimeMeasurement` records it |
| `Monitoring.CheckedMeasurementsSkipNulls` | slice-core/src/main/java/com/cognifide/slice/core/internal/monitoring/ModelUsageData.java:34-37 | with the check, a run of boxed measurements whose nulls are caught leaves the node that its non-null measurements alone produce |

## Left out

- Logging (`LOG.debug`) is left out. It has no effect on state.
- Guice's `Injector`, `Key.get` and `ClassToKeyMapper` are left out as code. The mapper is a finite map. A key is a class plus an optional qualifier. The injector is the finite `Injection` tree. A nested request that fails makes the injection fail with the same error. Guice would wrap that error in its own exception type; that wrapping is not modelled.
- The `Injection` tree cannot represent model code that catches a failing nested `get` and carries on: a nested failure always ends the injection. So no trace property covers a nested `get` made after a sibling failed. `Get`'s restoration contract still holds for each such call on its own.
- All nested requests in an `Injection` go through the same provider. Nested calls through a second provider instance, or code that pushes to the stack outside `get`, are not modelled.
- `ExecutionContextStack.getAbsolutePath` is an opaque total function of the stack and the path. Its body is not part of this model. Line 128 runs after the provider swap at line 125 and outside the `try`. So if it could throw, the installed context provider would not be restored. The model cannot show that this ever happens.
- `ExecutionContextImpl` is not part of this model. A frame is its path and its resource. The path a resource frame derives from its resource is not modelled.
- A null `Class` argument to `get` is not modelled. It fails in the logging call before any state changes. The unchecked cast at line 120 is not modelled either.
- `getCount` is the `count` field of `UsageData` and needs no function of its own. `getSubModels` is the `subModels` field. Sub-models are added through the returned live map by code outside this core, so that is not modelled.
- `getAverageTime` is left out. It is a floating-point division, and it is NaN or infinite when the count is 0.
- Monitoring.AddTimeMeasurement: the 64-bit wrap-around of `AtomicLong` is not modelled. All counters are unbounded integers, on the assumption that they never overflow. The same holds for `Monitoring.Add` and `Monitoring.TotalTimeMillis`.
- Monitoring.Add: a null argument is not modelled. In the source it throws before either counter changes.
- The atomicity of `AtomicLong` and `ConcurrentHashMap` is left out, and so are thread interleavings, including the non-atomic pair of updates in `add`. The node is modelled sequentially. Each node is a value, so a copy cannot share cells with the original.
- SliceModelLists.GetList: the `Iterator<String>` argument is modelled as a finite, possibly null sequence of paths. An iterator that never ends, which would keep the loop at line 151 running forever, is not modelled. Neither is a `hasNext()` or `next()` that throws between two `get`s; the source would propagate that exception with the state intact.
- `slice-persistence-api/.../ObjectSerializer.java` is left out. It is an interface with no logic, and serialisation to the resource tree is I/O.

## Findings

| source | as written | input that shows it | evidently intended | confidence | as-written member | corrected member |
|---|---|---|---|---|---|---|
| slice-core/src/main/java/com/cognifide/slice/core/internal/monitoring/ModelUsageData.java:34-37 | the count is incremented before the boxed `Long` argument is unboxed | `addTimeMeasurement(null)` on a new node: it throws `NullPointerException` but leaves count 1 and total 0 (`Monitoring.NullMeasurementIsHalfRecorded`) | a measurement is recorded in full or not at all, so the count stays the number of recorded times | low; not executed; whether any caller passes null is outside this model | `Monitoring.AddBoxedTimeMeasurement` | `Monitoring.AddCheckedTimeMeasurement` |
