/** `SliceModelProvider`: resolves a model through the injector inside a
    bracket that pushes an execution-context frame and installs the
    provider's own context provider, and undoes both however the injector
    leaves.

    The injector is opaque. What it does for one call is described by a
    finite tree: an `Injection` lists the nested `get` requests the injector
    makes, in order, while building the model, and then either produces an
    instance or throws. The restoration guarantees are proved by induction
    on that tree. */
module SliceModelProvider {
  import opened Common
  import opened ExecutionContext

  /** A Guice `Key`: a type plus an optional binding qualifier. */
  datatype Key = Key(model: TypeId, qualifier: Option<string>)

  /** What a provider fixes at construction: the context provider that was
      active when it was built, and its `ClassToKeyMapper` as a finite map
      (a class name outside the map is one the mapper answers `null` for). */
  datatype Provider = Provider(captured: ProviderId, classToKey: map<string, Key>)

  /** The three public `get` overloads. */
  datatype Request =
    | ForPath(model: TypeId, path: Option<Path>)
    | ForResource(model: TypeId, resource: Option<ResourceId>)
    | ForClassName(className: string, path: Option<Path>)

  /** How the injector's own work ends, once its nested requests are done. */
  datatype Outcome = Produce(instance: Instance) | Throw(reason: string)

  /** The injector's behaviour for one `getInstance` call: the nested `get`
      requests it makes, in order, and how it ends if they all succeed. */
  datatype Injection = Injection(nested: seq<Call>, outcome: Outcome)

  /** One `get` request together with what the injector does for it. */
  datatype Call = Call(request: Request, injection: Injection)

  datatype Error =
    | ClassNotFound(className: string)  // the class name maps to no key
    | Instantiation(reason: string)     // thrown by the injector
    | EmptyStack                        // `pop` on an empty stack

  datatype Result<+T> = Ok(value: T) | Err(error: Error)

  /** What the injector sees each time it is entered: the key asked for,
      the execution-context stack and the active context provider. */
  datatype Observation = Observation(key: Key, stack: seq<Frame>, active: ProviderId)

  /** The result of running provider code from some state: its result, the
      state it leaves behind and every injector entry it caused, in order. */
  datatype Run<+T> = Run(result: Result<T>, state: State, trace: seq<Observation>)

  /** The key a request resolves to: `Key.get(type)`, the unqualified key
      of the class, for the two overloads given a class; the mapper's key
      for a class name it knows; `None` for one it does not. */
  function KeyFor(p: Provider, r: Request): (k: Option<Key>)
    ensures k.None? <==> r.ForClassName? && r.className !in p.classToKey
    ensures !r.ForClassName? ==> k == Some(Key(r.model, None))
    ensures r.ForClassName? && k.Some? ==> k.value == p.classToKey[r.className]
  {
    match r
    case ForPath(t, _) => Some(Key(t, None))
    case ForResource(t, _) => Some(Key(t, None))
    case ForClassName(name, _) => if name in p.classToKey then Some(p.classToKey[name]) else None
  }

  /** The frame a request builds before the bracket normalises it, as the
      `ExecutionContextImpl` constructors do: anchored at the path for the
      two overloads given a path, at the resource for the one given a
      resource. */
  function FrameFor(r: Request): (f: Frame)
    ensures r.ForResource? ==> f.path.None? && f.resource == r.resource
    ensures !r.ForResource? ==> f.path == r.path && f.resource.None?
  {
    match r
    case ForPath(_, path) => Frame(path, None)
    case ForResource(_, resource) => Frame(None, resource)
    case ForClassName(_, path) => Frame(path, None)
  }

  /** What a call's result must be, whatever state it runs from: the
      class-not-found error for an unmapped class name, otherwise what the
      injector makes of its nested requests and its own outcome. */
  function Verdict(p: Provider, c: Call): Result<Instance>
    decreases c
  {
    if c.request.ForClassName? && c.request.className !in p.classToKey then Err(ClassNotFound(c.request.className))
    else InjectionVerdict(p, c.injection)
  }

  /** The first failing nested request's error, else the injector's own
      outcome: the instance it produces or the exception it throws. */
  function InjectionVerdict(p: Provider, inj: Injection): Result<Instance>
    decreases inj
  {
    match FirstError(p, inj.nested)
    case Some(e) => Err(e)
    case None =>
      match inj.outcome
      case Produce(i) => Ok(i)
      case Throw(reason) => Err(Instantiation(reason))
  }

  /** The error of the first of `calls` whose verdict is a failure, if any. */
  function FirstError(p: Provider, calls: seq<Call>): Option<Error>
    decreases calls
  {
    if |calls| == 0 then None
    else if Verdict(p, calls[0]).Err? then Some(Verdict(p, calls[0]).error)
    else FirstError(p, calls[1..])
  }

  /** The three public `get` overloads. The by-class-name one fails before
      touching any state when the name maps to no key. Every `get` returns
      the instance the injector produces, or propagates unchanged the first
      failure among the injector's nested requests and its own exception;
      whether it returns or fails, it leaves the stack and the active context
      provider exactly as it found them, and never trips the empty-stack
      check. */
  function Get(p: Provider, abs: AbsolutePath, s: State, c: Call): (run: Run<Instance>)
    ensures run.result == Verdict(p, c)
    ensures run.state == s
    ensures run.result != Err(EmptyStack)
    ensures c.request.ForClassName? && c.request.className !in p.classToKey ==>
              run == Run(Err(ClassNotFound(c.request.className)), s, [])
    decreases c
  {
    match KeyFor(p, c.request)
    case None => Run(Err(ClassNotFound(c.request.className)), s, [])
    case Some(key) => Bracket(p, abs, s, key, FrameFor(c.request), c.injection)
  }

  /** The private `get(Key, ExecutionContextImpl)`: save the active context
      provider and install the captured one, normalise the frame, push it,
      run the injector, then pop and restore. A `pop` that throws replaces
      the injector's outcome and skips the restore, as a `finally` block
      does; the postcondition shows this never happens. */
  function Bracket(p: Provider, abs: AbsolutePath, s: State, key: Key, f: Frame, inj: Injection): (run: Run<Instance>)
    ensures run.result == InjectionVerdict(p, inj)
    ensures run.state == s
    ensures run.result != Err(EmptyStack)
    decreases inj, 2
  {
    var saved := s.active;
    var installed := s.(active := p.captured);
    var frame := Normalise(abs, installed.stack, f);
    var inside := installed.(stack := Push(installed.stack, frame));
    var inner := Inject(p, abs, inside, key, inj);
    match Pop(inner.state.stack)
    case None => Run(Err(EmptyStack), inner.state, inner.trace)
    case Some(rest) => Run(inner.result, State(rest, saved), inner.trace)
  }

  /** `injector.getInstance(key)`: the injector is entered in state `s`,
      makes its nested requests in order and then ends as the tree says. A
      failing nested request makes the whole injection fail with its error. */
  function Inject(p: Provider, abs: AbsolutePath, s: State, key: Key, inj: Injection): (run: Run<Instance>)
    ensures run.result == InjectionVerdict(p, inj)
    ensures run.state == s
    ensures run.result != Err(EmptyStack)
    ensures |run.trace| > 0 && run.trace[0] == Observation(key, s.stack, s.active)
    decreases inj, 1
  {
    var nested := GetAll(p, abs, s, inj.nested);
    var result :=
      if nested.result.Err? then Err(nested.result.error)
      else match inj.outcome
        case Produce(i) => Ok(i)
        case Throw(reason) => Err(Instantiation(reason));
    Run(result, nested.state, [Observation(key, s.stack, s.active)] + nested.trace)
  }

  /** A sequence of `get`s run one after another, each from the state the
      previous one left, stopping at the first failure. This is both how
      the injector's nested requests run and what `getList` computes. */
  function GetAll(p: Provider, abs: AbsolutePath, s: State, calls: seq<Call>): (run: Run<seq<Instance>>)
    ensures run.result.Err? <==> FirstError(p, calls).Some?
    ensures run.result.Err? ==> run.result.error == FirstError(p, calls).value
    ensures run.state == s
    ensures run.result != Err(EmptyStack)
    ensures run.result.Ok? ==> |run.result.value| == |calls|
    ensures run.result.Ok? ==> forall i :: 0 <= i < |calls| ==> Verdict(p, calls[i]) == Ok(run.result.value[i])
    decreases calls
  {
    if |calls| == 0 then Run(Ok([]), s, [])
    else
      var first := Get(p, abs, s, calls[0]);
      if first.result.Err? then Run(Err(first.result.error), first.state, first.trace)
      else
        var rest := GetAll(p, abs, first.state, calls[1..]);
        var result := if rest.result.Err? then Err(rest.result.error) else Ok([first.result.value] + rest.result.value);
        Run(result, rest.state, first.trace + rest.trace)
  }
}

/** `getList`: the list overloads of `SliceModelProvider`, as the loop the
    source runs, proved equal to `GetAll` over the corresponding calls. */
module SliceModelLists {
  import opened Common
  import opened ExecutionContext
  import opened SliceModelProvider

  /** One element of the `paths` argument (possibly a null string) together
      with what the injector does when asked for the model at it. */
  datatype Item = Item(path: Option<Path>, injection: Injection)

  /** The `get(type, path)` call `getList` makes for each element. */
  function ItemCalls(t: TypeId, items: seq<Item>): (calls: seq<Call>)
    ensures |calls| == |items|
    ensures forall i :: 0 <= i < |items| ==> calls[i] == Call(ForPath(t, items[i].path), items[i].injection)
  {
    seq(|items|, i requires 0 <= i < |items| => Call(ForPath(t, items[i].path), items[i].injection))
  }

  /** Running `a` and then, unless it failed, `b`. */
  function AndThen(a: Run<seq<Instance>>, b: Run<seq<Instance>>): Run<seq<Instance>> {
    if a.result.Err? then a
    else
      var result := if b.result.Err? then Err(b.result.error) else Ok(a.result.value + b.result.value);
      Run(result, b.state, a.trace + b.trace)
  }

  /** Running a sequence of `get`s in two halves is running the first half
      and then, unless it failed, the second, from the same state. */
  lemma {:induction false} GetAllAppend(p: Provider, abs: AbsolutePath, s: State, xs: seq<Call>, ys: seq<Call>)
    ensures GetAll(p, abs, s, xs + ys) == AndThen(GetAll(p, abs, s, xs), GetAll(p, abs, s, ys))
    decreases |xs|
  {
    if |xs| == 0 {
      assert xs + ys == ys;
      var second := GetAll(p, abs, s, ys);
      assert [] + second.trace == second.trace;
      if second.result.Ok? {
        assert [] + second.result.value == second.result.value;
      }
    } else {
      assert (xs + ys)[0] == xs[0];
      assert (xs + ys)[1..] == xs[1..] + ys;
      var first := Get(p, abs, s, xs[0]);
      if first.result.Ok? {
        GetAllAppend(p, abs, s, xs[1..], ys);
        var tail := GetAll(p, abs, s, xs[1..]);
        var second := GetAll(p, abs, s, ys);
        assert first.trace + (tail.trace + second.trace) == (first.trace + tail.trace) + second.trace;
        if tail.result.Ok? && second.result.Ok? {
          var v := [first.result.value];
          assert v + (tail.result.value + second.result.value) == (v + tail.result.value) + second.result.value;
        }
      }
    }
  }

  /** A single `get` run as a sequence of one. */
  lemma GetAllSingle(p: Provider, abs: AbsolutePath, s: State, c: Call)
    ensures var r := Get(p, abs, s, c);
            GetAll(p, abs, s, [c]) ==
              Run(if r.result.Err? then Err(r.result.error) else Ok([r.result.value]), s, r.trace)
  {
    var r := Get(p, abs, s, c);
    assert [c][1..] == [];
    assert r.trace + [] == r.trace;
    if r.result.Ok? {
      assert [r.result.value] + [] == [r.result.value];
    }
  }

  /** One more `get` on a prefix that succeeded so far. */
  lemma GetAllExtend(p: Provider, abs: AbsolutePath, s: State, calls: seq<Call>, i: nat)
    requires i < |calls|
    requires GetAll(p, abs, s, calls[..i]).result.Ok?
    ensures var prev := GetAll(p, abs, s, calls[..i]);
            var r := Get(p, abs, s, calls[i]);
            GetAll(p, abs, s, calls[..i + 1]) ==
              Run(if r.result.Err? then Err(r.result.error) else Ok(prev.result.value + [r.result.value]),
                  s, prev.trace + r.trace)
  {
    assert calls[..i + 1] == calls[..i] + [calls[i]];
    GetAllAppend(p, abs, s, calls[..i], [calls[i]]);
    GetAllSingle(p, abs, s, calls[i]);
  }

  /** Once a prefix has failed, the rest of the sequence is never run. */
  lemma GetAllStopped(p: Provider, abs: AbsolutePath, s: State, calls: seq<Call>, i: nat)
    requires i <= |calls|
    requires GetAll(p, abs, s, calls[..i]).result.Err?
    ensures GetAll(p, abs, s, calls) == GetAll(p, abs, s, calls[..i])
  {
    assert calls == calls[..i] + calls[i..];
    GetAllAppend(p, abs, s, calls[..i], calls[i..]);
  }

  /** `getList(type, Iterator<String>)`: a null iterator gives an empty
      list without entering the injector; otherwise each path is resolved
      with `get(type, path)` in order and appended, and the first failure
      propagates. */
  method GetList(p: Provider, abs: AbsolutePath, s: State, t: TypeId, paths: Option<seq<Item>>)
    returns (run: Run<seq<Instance>>)
    ensures paths.None? ==> run == Run(Ok([]), s, [])
    ensures paths.Some? ==> run == GetAll(p, abs, s, ItemCalls(t, paths.value))
  {
    if paths.None? {
      return Run(Ok([]), s, []);
    }
    var calls := ItemCalls(t, paths.value);
    var models: seq<Instance> := [];
    var trace: seq<Observation> := [];
    var state := s;
    var i := 0;
    while i < |calls|
      invariant 0 <= i <= |calls|
      invariant state == s
      invariant GetAll(p, abs, s, calls[..i]) == Run(Ok(models), state, trace)
    {
      var r := Get(p, abs, state, calls[i]);
      GetAllExtend(p, abs, s, calls, i);
      if r.result.Err? {
        GetAllStopped(p, abs, s, calls, i + 1);
        return Run(Err(r.result.error), r.state, trace + r.trace);
      }
      models := models + [r.result.value];
      trace := trace + r.trace;
      state := r.state;
      i := i + 1;
    }
    assert calls[..i] == calls;
    return Run(Ok(models), state, trace);
  }

  /** `getList(type, String[])`: a null array gives an empty list; any
      other array is resolved through the iterator overload. */
  method GetListOfArray(p: Provider, abs: AbsolutePath, s: State, t: TypeId, paths: Option<seq<Item>>)
    returns (run: Run<seq<Instance>>)
    ensures paths.None? ==> run == Run(Ok([]), s, [])
    ensures paths.Some? ==> run == GetAll(p, abs, s, ItemCalls(t, paths.value))
  {
    if paths.None? {
      return Run(Ok([]), s, []);
    }
    run := GetList(p, abs, s, t, paths);
  }
}
