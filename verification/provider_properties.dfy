/** Properties of the `SliceModelProvider` bracket that relate a call to the
    injector entries it causes, and of `getList` that relate the list to the
    single-path `get`s it is made of. */
module ProviderProperties {
  import opened Common
  import opened ExecutionContext
  import opened SliceModelProvider
  import opened SliceModelLists

  /** Every observation in `trace` was made with `base` strictly below the
      top of the stack and with `captured` as the active context provider. */
  ghost predicate Above(base: seq<Frame>, captured: ProviderId, trace: seq<Observation>) {
    forall i :: 0 <= i < |trace| ==>
      |base| < |trace[i].stack| && trace[i].stack[..|base|] == base && trace[i].active == captured
  }

  /** As `Above`, but `base` may itself be the whole stack. */
  ghost predicate AtOrAbove(base: seq<Frame>, captured: ProviderId, trace: seq<Observation>) {
    forall i :: 0 <= i < |trace| ==>
      |base| <= |trace[i].stack| && trace[i].stack[..|base|] == base && trace[i].active == captured
  }

  /** When a `get` gets past the key lookup, the injector is entered first
      with the key of the request, with this call's frame (normalised against
      the caller's stack) on top of the caller's stack, and with the provider's
      captured context provider active. */
  lemma InjectorSeesOwnFrame(p: Provider, abs: AbsolutePath, s: State, c: Call)
    requires KeyFor(p, c.request).Some?
    ensures var run := Get(p, abs, s, c);
            |run.trace| > 0 &&
            run.trace[0] == Observation(KeyFor(p, c.request).value,
                                        s.stack + [Normalise(abs, s.stack, FrameFor(c.request))],
                                        p.captured)
  {
  }

  /** The frame pushed for a request: a non-null path is made absolute
      against the caller's stack; a null path and a resource are pushed as
      they are. */
  lemma PushedFrame(p: Provider, abs: AbsolutePath, s: State, c: Call)
    requires KeyFor(p, c.request).Some?
    ensures var run := Get(p, abs, s, c);
            |run.trace| > 0 && |run.trace[0].stack| == |s.stack| + 1 && run.trace[0].stack[..|s.stack|] == s.stack
    ensures var top := Get(p, abs, s, c).trace[0].stack[|s.stack|];
            match c.request
            case ForResource(_, resource) => top == Frame(None, resource)
            case ForPath(_, path) =>
              top == Frame(if path.Some? then Some(abs(s.stack, path.value)) else None, None)
            case ForClassName(_, path) =>
              top == Frame(if path.Some? then Some(abs(s.stack, path.value)) else None, None)
  {
    InjectorSeesOwnFrame(p, abs, s, c);
  }

  /** A class name the mapper does not know fails with class-not-found
      before the injector is entered or any state changes. */
  lemma UnknownClassNameTouchesNothing(p: Provider, abs: AbsolutePath, s: State, name: string, path: Option<Path>, inj: Injection)
    requires name !in p.classToKey
    ensures Get(p, abs, s, Call(ForClassName(name, path), inj)) == Run(Err(ClassNotFound(name)), s, [])
  {
  }

  /** However deeply the injector re-enters `get`, every time it runs the
      caller's stack lies strictly below the top and the provider's captured
      context provider is active. */
  lemma {:induction false} InjectionsRunAboveCaller(p: Provider, abs: AbsolutePath, s: State, c: Call)
    ensures Above(s.stack, p.captured, Get(p, abs, s, c).trace)
    decreases c, 0
  {
    match KeyFor(p, c.request)
    case None =>
    case Some(key) => BracketRunsAboveCaller(p, abs, s, key, FrameFor(c.request), c.injection);
  }

  lemma {:induction false} BracketRunsAboveCaller(p: Provider, abs: AbsolutePath, s: State, key: Key, f: Frame, inj: Injection)
    ensures Above(s.stack, p.captured, Bracket(p, abs, s, key, f, inj).trace)
    ensures AtOrAbove(s.stack + [Normalise(abs, s.stack, f)], p.captured, Bracket(p, abs, s, key, f, inj).trace)
    decreases inj, 2
  {
    var frame := Normalise(abs, s.stack, f);
    var inside := State(s.stack + [frame], p.captured);
    var inner := Inject(p, abs, inside, key, inj);
    InjectRunsAtOrAbove(p, abs, inside, key, inj);
    forall i | 0 <= i < |inner.trace|
      ensures |s.stack| < |inner.trace[i].stack| && inner.trace[i].stack[..|s.stack|] == s.stack
    {
      var st := inner.trace[i].stack;
      assert st[..|inside.stack|] == inside.stack;
      assert st[..|s.stack|] == st[..|inside.stack|][..|s.stack|];
    }
  }

  lemma {:induction false} InjectRunsAtOrAbove(p: Provider, abs: AbsolutePath, s: State, key: Key, inj: Injection)
    requires s.active == p.captured
    ensures AtOrAbove(s.stack, p.captured, Inject(p, abs, s, key, inj).trace)
    decreases inj, 1
  {
    GetAllRunsAboveCaller(p, abs, s, inj.nested);
  }

  lemma {:induction false} GetAllRunsAboveCaller(p: Provider, abs: AbsolutePath, s: State, calls: seq<Call>)
    ensures Above(s.stack, p.captured, GetAll(p, abs, s, calls).trace)
    decreases calls, 0
  {
    if |calls| > 0 {
      InjectionsRunAboveCaller(p, abs, s, calls[0]);
      if Get(p, abs, s, calls[0]).result.Ok? {
        GetAllRunsAboveCaller(p, abs, s, calls[1..]);
      }
    }
  }

  /** While the injector runs, its nested requests start from the bracket's
      state: the `i`-th nested request, reached because every earlier one
      succeeded, enters the injector with its own normalised frame pushed
      directly on the enclosing call's frame, so a relative path in it is
      made absolute against that frame, under the captured context provider. */
  lemma NestedRequestsSeeBracketFrame(p: Provider, abs: AbsolutePath, s: State, key: Key, f: Frame, inj: Injection, i: nat)
    requires i < |inj.nested|
    requires forall j :: 0 <= j < i ==> Verdict(p, inj.nested[j]).Ok?
    requires KeyFor(p, inj.nested[i].request).Some?
    ensures var inside := s.stack + [Normalise(abs, s.stack, f)];
            Observation(KeyFor(p, inj.nested[i].request).value,
                        inside + [Normalise(abs, inside, FrameFor(inj.nested[i].request))],
                        p.captured)
              in Bracket(p, abs, s, key, f, inj).trace
  {
    var inside := State(s.stack + [Normalise(abs, s.stack, f)], p.captured);
    var calls := inj.nested;
    var prefix := calls[..i];
    var suffix := calls[i..];
    assert calls == prefix + suffix;
    GetAllAppend(p, abs, inside, prefix, suffix);
    GetAllSucceeds(p, abs, inside, prefix);
    forall j | 0 <= j < |prefix|
      ensures Get(p, abs, inside, prefix[j]).result.Ok?
    {
      assert prefix[j] == calls[j];
    }
    var before := GetAll(p, abs, inside, prefix);
    var after := GetAll(p, abs, inside, suffix);
    assert GetAll(p, abs, inside, calls).trace == before.trace + after.trace;
    assert suffix[0] == calls[i];
    var own := Get(p, abs, inside, calls[i]);
    InjectorSeesOwnFrame(p, abs, inside, calls[i]);
    assert after.trace[..|own.trace|] == own.trace;
    var o := own.trace[0];
    assert o == after.trace[0];
    var bracket := Bracket(p, abs, s, key, f, inj).trace;
    assert Push(s.stack, Normalise(abs, s.stack, f)) == inside.stack;
    assert bracket == Inject(p, abs, inside, key, inj).trace;
    assert Inject(p, abs, inside, key, inj).trace
        == [Observation(key, inside.stack, inside.active)] + GetAll(p, abs, inside, calls).trace;
    assert bracket == [Observation(key, inside.stack, inside.active)] + (before.trace + after.trace);
    assert bracket[1 + |before.trace|] == o;
  }

  /** The keys the injector is entered with, in order. */
  function Keys(trace: seq<Observation>): seq<Key>
    decreases |trace|
  {
    if |trace| == 0 then [] else [trace[0].key] + Keys(trace[1..])
  }

  lemma {:induction false} KeysAppend(a: seq<Observation>, b: seq<Observation>)
    ensures Keys(a + b) == Keys(a) + Keys(b)
    decreases |a|
  {
    if |a| == 0 {
      assert a + b == b;
    } else {
      assert (a + b)[0] == a[0];
      assert (a + b)[1..] == a[1..] + b;
      KeysAppend(a[1..], b);
    }
  }

  /** The keys the injector is asked for because of a call, whatever state
      it runs from: none for an unmapped class name; otherwise the call's own
      key, then, in order, those of its nested requests up to and including
      the first one that fails. */
  function Entries(p: Provider, c: Call): seq<Key>
    decreases c
  {
    match KeyFor(p, c.request)
    case None => []
    case Some(key) => [key] + NestedEntries(p, c.injection.nested)
  }

  function NestedEntries(p: Provider, calls: seq<Call>): seq<Key>
    decreases calls
  {
    if |calls| == 0 then []
    else Entries(p, calls[0]) + (if Verdict(p, calls[0]).Err? then [] else NestedEntries(p, calls[1..]))
  }

  /** A `get` enters the injector exactly for the keys `Entries` lists, in
      that order, at every depth of re-entry. */
  lemma {:induction false} GetEntries(p: Provider, abs: AbsolutePath, s: State, c: Call)
    ensures Keys(Get(p, abs, s, c).trace) == Entries(p, c)
    decreases c, 0
  {
    match KeyFor(p, c.request)
    case None =>
    case Some(key) =>
      var frame := Normalise(abs, s.stack, FrameFor(c.request));
      InjectEntries(p, abs, State(s.stack + [frame], p.captured), key, c.injection);
  }

  lemma {:induction false} InjectEntries(p: Provider, abs: AbsolutePath, s: State, key: Key, inj: Injection)
    ensures Keys(Inject(p, abs, s, key, inj).trace) == [key] + NestedEntries(p, inj.nested)
    decreases inj, 1
  {
    var nested := GetAll(p, abs, s, inj.nested);
    var first := [Observation(key, s.stack, s.active)];
    GetAllEntries(p, abs, s, inj.nested);
    KeysAppend(first, nested.trace);
    assert first[1..] == [];
  }

  lemma {:induction false} GetAllEntries(p: Provider, abs: AbsolutePath, s: State, calls: seq<Call>)
    ensures Keys(GetAll(p, abs, s, calls).trace) == NestedEntries(p, calls)
    decreases calls, 0
  {
    if |calls| > 0 {
      var first := Get(p, abs, s, calls[0]);
      GetEntries(p, abs, s, calls[0]);
      if first.result.Err? {
        assert Entries(p, calls[0]) + [] == Entries(p, calls[0]);
      } else {
        var rest := GetAll(p, abs, s, calls[1..]);
        GetAllEntries(p, abs, s, calls[1..]);
        KeysAppend(first.trace, rest.trace);
      }
    }
  }

  /** The injector entries of a sequence of `get`s, each run from `s`. */
  function Traces(p: Provider, abs: AbsolutePath, s: State, calls: seq<Call>): seq<Observation>
    decreases |calls|
  {
    if |calls| == 0 then [] else Get(p, abs, s, calls[0]).trace + Traces(p, abs, s, calls[1..])
  }

  /** A sequence of `get`s succeeds exactly when each of them, run alone from
      the same state, succeeds; it then returns their models in order and
      has entered the injector for every one of them. */
  lemma {:induction false} GetAllSucceeds(p: Provider, abs: AbsolutePath, s: State, calls: seq<Call>)
    ensures var run := GetAll(p, abs, s, calls);
            run.result.Ok? <==> forall i :: 0 <= i < |calls| ==> Get(p, abs, s, calls[i]).result.Ok?
    ensures var run := GetAll(p, abs, s, calls);
            run.result.Ok? ==>
              && |run.result.value| == |calls|
              && (forall i :: 0 <= i < |calls| ==> Get(p, abs, s, calls[i]).result == Ok(run.result.value[i]))
              && run.trace == Traces(p, abs, s, calls)
    decreases |calls|
  {
    if |calls| > 0 {
      GetAllSucceeds(p, abs, s, calls[1..]);
      var first := Get(p, abs, s, calls[0]);
      var rest := GetAll(p, abs, s, calls[1..]);
      forall i | 1 <= i < |calls|
        ensures calls[i] == calls[1..][i - 1]
      {
      }
      if first.result.Ok? && rest.result.Ok? {
        var models := [first.result.value] + rest.result.value;
        forall i | 0 <= i < |calls|
          ensures Get(p, abs, s, calls[i]).result == Ok(models[i])
        {
          if i > 0 {
            assert models[i] == rest.result.value[i - 1];
          }
        }
      }
    }
  }

  /** Unfolds a sequence of `get`s whose first one succeeds. */
  lemma GetAllCons(p: Provider, abs: AbsolutePath, s: State, calls: seq<Call>)
    requires |calls| > 0 && Get(p, abs, s, calls[0]).result.Ok?
    ensures var run := GetAll(p, abs, s, calls);
            var rest := GetAll(p, abs, s, calls[1..]);
            && run.trace == Get(p, abs, s, calls[0]).trace + rest.trace
            && (run.result.Err? <==> rest.result.Err?)
            && (run.result.Err? ==> run.result.error == rest.result.error)
  {
  }

  /** The traces of the first `k + 2` calls, split after the first. */
  lemma TracesCons(p: Provider, abs: AbsolutePath, s: State, calls: seq<Call>, k: nat)
    requires k + 2 <= |calls|
    ensures Traces(p, abs, s, calls[..k + 2]) == Get(p, abs, s, calls[0]).trace + Traces(p, abs, s, calls[1..][..k + 1])
  {
    assert calls[..k + 2][1..] == calls[1..][..k + 1];
    assert calls[..k + 2][0] == calls[0];
  }

  /** A failing sequence of `get`s fails at some index `k`: everything before
      `k` succeeded, the `k`-th failed with the error that is propagated, and
      the injector was entered for nothing after `k`. */
  lemma {:induction false} GetAllStopsAtFirstFailure(p: Provider, abs: AbsolutePath, s: State, calls: seq<Call>)
    requires GetAll(p, abs, s, calls).result.Err?
    ensures exists k :: 0 <= k < |calls|
              && (forall i :: 0 <= i < k ==> Get(p, abs, s, calls[i]).result.Ok?)
              && Get(p, abs, s, calls[k]).result == Err(GetAll(p, abs, s, calls).result.error)
              && GetAll(p, abs, s, calls).trace == Traces(p, abs, s, calls[..k + 1])
    decreases |calls|
  {
    var run := GetAll(p, abs, s, calls);
    var first := Get(p, abs, s, calls[0]);
    if first.result.Err? {
      assert calls[..1][1..] == [];
      assert Traces(p, abs, s, calls[..1]) == first.trace + [];
      assert first.trace + [] == first.trace;
      assert run.trace == first.trace && first.result == Err(run.result.error);
    } else {
      var tail := calls[1..];
      var rest := GetAll(p, abs, s, tail);
      GetAllCons(p, abs, s, calls);
      GetAllStopsAtFirstFailure(p, abs, s, tail);
      var k :| 0 <= k < |tail|
                && (forall i :: 0 <= i < k ==> Get(p, abs, s, tail[i]).result.Ok?)
                && Get(p, abs, s, tail[k]).result == Err(rest.result.error)
                && rest.trace == Traces(p, abs, s, tail[..k + 1]);
      TracesCons(p, abs, s, calls, k);
      forall i | 0 <= i < k + 1
        ensures Get(p, abs, s, calls[i]).result.Ok?
      {
        if i > 0 {
          assert calls[i] == tail[i - 1];
        }
      }
      assert calls[k + 1] == tail[k];
      assert run.trace == Traces(p, abs, s, calls[..k + 2]);
    }
  }

  /** `getList` on a present list: one model per path, in input order, each
      the one `get(type, path)` gives from the caller's state; or the error
      of the first path that fails, with no path after it resolved. Either
      way the caller's state is restored. */
  lemma GetListResult(p: Provider, abs: AbsolutePath, s: State, t: TypeId, items: seq<Item>)
    ensures var run := GetAll(p, abs, s, ItemCalls(t, items));
            run.state == s &&
            (run.result.Ok? ==>
               && |run.result.value| == |items|
               && forall i :: 0 <= i < |items| ==>
                    Get(p, abs, s, Call(ForPath(t, items[i].path), items[i].injection)).result == Ok(run.result.value[i])) &&
            (run.result.Err? ==>
               exists k :: 0 <= k < |items|
                 && (forall i :: 0 <= i < k ==> Get(p, abs, s, ItemCalls(t, items)[i]).result.Ok?)
                 && Get(p, abs, s, Call(ForPath(t, items[k].path), items[k].injection)).result == Err(run.result.error)
                 && run.trace == Traces(p, abs, s, ItemCalls(t, items)[..k + 1]))
  {
    var calls := ItemCalls(t, items);
    var run := GetAll(p, abs, s, calls);
    if run.result.Ok? {
      GetAllSucceeds(p, abs, s, calls);
    } else {
      GetAllStopsAtFirstFailure(p, abs, s, calls);
    }
  }
}
