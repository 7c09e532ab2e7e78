/**
 The retry-with-fallback loop of `Localization.formatWithFallback`
 (src/lib/dom/base.js): resolve the keys against the head bundle's context,
 and on errors drop the head, activate the next bundle and retry with the
 partial results carried forward.
 */
module Fallback {
  import opened Wrappers
  import opened Bundles

  type Args = map<string, string>

  /** A key as passed by a caller: a bare identifier or an (identifier, arguments) tuple. */
  datatype Key = Id(id: string) | Tuple(id: string, args: Option<Args>)

  /** Which formatter of the format layer is used: `valueFromContext` or `entityFromContext`. */
  datatype Mode = ValueMode | EntityMode

  /** A formatted value or entity; its shape belongs to the format layer. */
  datatype Value = Value(payload: string)

  /** One formatted tuple: the value in the first slot and the format layer's extra data in the second. */
  datatype Translation = Translation(value: Value, detail: string)

  datatype LookupError = LookupError(message: string)

  /** What one batch resolution against a context reports. */
  datatype Resolution = Resolution(translations: seq<Translation>, errors: seq<LookupError>)

  /**
   The batch resolver `keysFromContext(ctx, keys, method, prev)` of the format layer,
   which is not part of this model; the engine receives it as a parameter.
   */
  type Resolver = (Context, seq<Key>, Mode, Option<seq<Translation>>) -> Resolution

  /** The format layer's promise: one translation per requested key. */
  ghost predicate PreservesArity(resolve: Resolver) {
    forall ctx, keys, mode, prev :: |resolve(ctx, keys, mode, prev).translations| == |keys|
  }

  /** One attempt of the loop: the bundle tried, the context consulted, what it reported. */
  datatype Step = Step(bundle: Bundle, context: Context, resolution: Resolution)

  /** A fulfilled format call: the values, the bundle-context association after it, and its attempts. */
  datatype Outcome = Outcome(values: seq<Value>, contexts: Registry, steps: seq<Step>)

  /** `prev.map` on an undefined `prev` throws, which rejects the returned promise. */
  datatype Rejection = NoPreviousResults

  /** The first component of each tuple (`tuple => tuple[0]`). */
  function Firsts(ts: seq<Translation>): (vs: seq<Value>)
    ensures |vs| == |ts|
    ensures forall i :: 0 <= i < |ts| ==> vs[i] == ts[i].value
  {
    seq(|ts|, i requires 0 <= i < |ts| => ts[i].value)
  }

  /** Prefixes attempts that happened before a (recursive) outcome. */
  function PrependSteps(steps: seq<Step>, r: Result<Outcome, Rejection>): Result<Outcome, Rejection> {
    match r
    case Success(o) => Success(o.(steps := steps + o.steps))
    case Failure(e) => Failure(e)
  }

  function FormatWithFallback(resolve: Resolver, chain: Chain, keys: seq<Key>, mode: Mode,
                              prev: Option<seq<Translation>>, contexts: Registry): (r: Result<Outcome, Rejection>)
    ensures r.Failure? <==> prev.None? && HeadContext(chain, contexts).None?
    ensures r.Success? && PreservesArity(resolve) && (prev.Some? ==> |prev.value| == |keys|)
            ==> |r.value.values| == |keys|
    ensures r.Success? ==> |r.value.steps| <= |chain|
    decreases |chain|
  {
    match HeadContext(chain, contexts)
    case None =>
      if prev.None? then Failure(NoPreviousResults)
      else Success(Outcome(Firsts(prev.value), contexts, []))
    case Some(ctx) =>
      var resolution := resolve(ctx, keys, mode, prev);
      var step := Step(chain[0], ctx, resolution);
      if |resolution.errors| == 0 then
        Success(Outcome(Firsts(resolution.translations), contexts, [step]))
      else
        var tail := chain[1..];
        PrependSteps([step], FormatWithFallback(resolve, tail, keys, mode, Some(resolution.translations),
                                                FetchFirstBundle(tail, contexts)))
  }

  /** With no context for the head (an empty chain included), the carried results come back unchanged. */
  lemma NoContextReturnsPrevious(resolve: Resolver, chain: Chain, keys: seq<Key>, mode: Mode,
                                 prev: seq<Translation>, contexts: Registry)
    requires HeadContext(chain, contexts).None?
    ensures var r := FormatWithFallback(resolve, chain, keys, mode, Some(prev), contexts);
            && r.Success?
            && |r.value.values| == |prev|
            && (forall i :: 0 <= i < |prev| ==> r.value.values[i] == prev[i].value)
            && |r.value.steps| == 0
            && r.value.contexts == contexts
  {
  }

  /** The association after activating each of `bundles` in turn. */
  ghost function ActivatedAll(contexts: Registry, bundles: seq<Bundle>): Registry
    decreases |bundles|
  {
    if |bundles| == 0 then contexts
    else ActivatedAll(contexts[bundles[0].id := ContextOf(bundles[0])], bundles[1..])
  }

  /**
   A declarative account of a fallback run over `chain`: attempt `i` is made on
   `chain[i]`, each attempt is fed the translations of the one before, every attempt
   but the last reported errors, the run stops at the first error-free attempt or
   when the chain is used up, the values are those of the last attempt, and the only
   bundles activated are the ones tried after the head.
   */
  ghost predicate IsRun(resolve: Resolver, chain: Chain, keys: seq<Key>, mode: Mode,
                        prev: Option<seq<Translation>>, contexts: Registry, o: Outcome)
  {
    && FollowsChain(chain, contexts, o.steps)
    && FeedsForward(resolve, keys, mode, prev, o.steps)
    && StopsAtFirstSuccess(chain, o.steps)
    && ReturnsLastValues(prev, o)
    && ActivatesTried(chain, contexts, o)
  }

  /** Attempt `i` is made on `chain[i]`, against the head's existing context or a freshly built one. */
  ghost predicate FollowsChain(chain: Chain, contexts: Registry, steps: seq<Step>) {
    && |steps| <= |chain|
    && (|steps| == 0 <==> HeadContext(chain, contexts).None?)
    && (forall i :: 0 <= i < |steps| ==> steps[i].bundle == chain[i])
    && (|steps| > 0 ==> Some(steps[0].context) == HeadContext(chain, contexts))
    && (forall i :: 1 <= i < |steps| ==> steps[i].context == ContextOf(chain[i]))
  }

  /** Each attempt resolves the same keys in the same mode, fed the translations of the attempt before. */
  ghost predicate FeedsForward(resolve: Resolver, keys: seq<Key>, mode: Mode,
                               prev: Option<seq<Translation>>, steps: seq<Step>)
    decreases |steps|
  {
    |steps| == 0 ||
    (&& steps[0].resolution == resolve(steps[0].context, keys, mode, prev)
     && FeedsForward(resolve, keys, mode, Some(steps[0].resolution.translations), steps[1..]))
  }

  /** Every attempt of a fed-forward sequence is a resolution of the keys against its own context. */
  lemma {:induction false} FeedsForwardResolves(resolve: Resolver, keys: seq<Key>, mode: Mode,
                                                prev: Option<seq<Translation>>, steps: seq<Step>, i: nat)
    requires FeedsForward(resolve, keys, mode, prev, steps)
    requires i < |steps|
    ensures exists p :: steps[i].resolution == resolve(steps[i].context, keys, mode, p)
    decreases i
  {
    if i == 0 {
      assert steps[0].resolution == resolve(steps[0].context, keys, mode, prev);
    } else {
      FeedsForwardResolves(resolve, keys, mode, Some(steps[0].resolution.translations), steps[1..], i - 1);
      assert steps[1..][i - 1] == steps[i];
    }
  }

  /** Every attempt but the last reported errors; the last one reported none, or the chain is used up. */
  ghost predicate StopsAtFirstSuccess(chain: Chain, steps: seq<Step>) {
    && (forall i :: 0 <= i < |steps| - 1 ==> |steps[i].resolution.errors| > 0)
    && (|steps| > 0 ==> |steps[|steps| - 1].resolution.errors| == 0 || |steps| == |chain|)
  }

  /** The values are the first components of the last attempt's translations, or of `prev` if none was made. */
  ghost predicate ReturnsLastValues(prev: Option<seq<Translation>>, o: Outcome) {
    && (|o.steps| == 0 ==> prev.Some? && o.values == Firsts(prev.value))
    && (|o.steps| > 0 ==> o.values == Firsts(o.steps[|o.steps| - 1].resolution.translations))
  }

  /** The association changes exactly by activating the bundles tried after the head, in order. */
  ghost predicate ActivatesTried(chain: Chain, contexts: Registry, o: Outcome)
    requires |o.steps| <= |chain|
  {
    o.contexts == ActivatedAll(contexts, if |o.steps| == 0 then [] else chain[1..|o.steps|])
  }

  /** Every fulfilled run of the recursive loop is a run in the sense of IsRun. */
  lemma {:induction false} FormatWithFallbackIsRun(resolve: Resolver, chain: Chain, keys: seq<Key>, mode: Mode,
                                                   prev: Option<seq<Translation>>, contexts: Registry)
    ensures var r := FormatWithFallback(resolve, chain, keys, mode, prev, contexts);
            r.Success? ==> IsRun(resolve, chain, keys, mode, prev, contexts, r.value)
    decreases |chain|
  {
    var r := FormatWithFallback(resolve, chain, keys, mode, prev, contexts);
    match HeadContext(chain, contexts)
    case None =>
    case Some(ctx) =>
      var resolution := resolve(ctx, keys, mode, prev);
      var step := Step(chain[0], ctx, resolution);
      if |resolution.errors| > 0 {
        var tail := chain[1..];
        var contexts' := FetchFirstBundle(tail, contexts);
        var prev' := Some(resolution.translations);
        var rest := FormatWithFallback(resolve, tail, keys, mode, prev', contexts');
        FormatWithFallbackIsRun(resolve, tail, keys, mode, prev', contexts');
        var o := rest.value;
        assert r == Success(o.(steps := [step] + o.steps));
        FollowsChainStep(chain, contexts, step, o.steps);
        FeedsForwardStep(resolve, keys, mode, prev, step, o.steps);
        StopsStep(chain, contexts, step, o.steps);
        ReturnsStep(prev, step, o);
        ActivatesStep(chain, contexts, step, o);
      }
  }

  lemma FollowsChainStep(chain: Chain, contexts: Registry, step: Step, steps: seq<Step>)
    requires |chain| > 0 && Some(step.context) == HeadContext(chain, contexts) && step.bundle == chain[0]
    requires FollowsChain(chain[1..], FetchFirstBundle(chain[1..], contexts), steps)
    ensures FollowsChain(chain, contexts, [step] + steps)
  {
    var all := [step] + steps;
    forall i | 1 <= i < |all|
      ensures all[i].bundle == chain[i] && all[i].context == ContextOf(chain[i])
    {
      assert all[i] == steps[i - 1];
    }
  }

  lemma FeedsForwardStep(resolve: Resolver, keys: seq<Key>, mode: Mode, prev: Option<seq<Translation>>,
                         step: Step, steps: seq<Step>)
    requires step.resolution == resolve(step.context, keys, mode, prev)
    requires FeedsForward(resolve, keys, mode, Some(step.resolution.translations), steps)
    ensures FeedsForward(resolve, keys, mode, prev, [step] + steps)
  {
    assert ([step] + steps)[1..] == steps;
  }

  lemma StopsStep(chain: Chain, contexts: Registry, step: Step, steps: seq<Step>)
    requires |chain| > 0 && |step.resolution.errors| > 0
    requires FollowsChain(chain[1..], FetchFirstBundle(chain[1..], contexts), steps)
    requires StopsAtFirstSuccess(chain[1..], steps)
    ensures StopsAtFirstSuccess(chain, [step] + steps)
  {
    var all := [step] + steps;
    assert |steps| == 0 ==> |chain| == 1;
    forall i | 1 <= i < |all| ensures all[i] == steps[i - 1] {
    }
  }

  lemma ReturnsStep(prev: Option<seq<Translation>>, step: Step, o: Outcome)
    requires ReturnsLastValues(Some(step.resolution.translations), o)
    ensures ReturnsLastValues(prev, o.(steps := [step] + o.steps))
  {
    var all := [step] + o.steps;
    assert all[|all| - 1] == if |o.steps| == 0 then step else o.steps[|o.steps| - 1];
  }

  lemma ActivatesStep(chain: Chain, contexts: Registry, step: Step, o: Outcome)
    requires |chain| > 0 && |o.steps| <= |chain| - 1
    requires FollowsChain(chain[1..], FetchFirstBundle(chain[1..], contexts), o.steps)
    requires ActivatesTried(chain[1..], FetchFirstBundle(chain[1..], contexts), o)
    ensures ActivatesTried(chain, contexts, o.(steps := [step] + o.steps))
  {
    var tail := chain[1..];
    var m := |o.steps|;
    if m > 0 {
      assert tail[0..m] == [tail[0]] + tail[1..m];
      assert tail[0..m] == chain[1..m + 1];
      assert tail[0..m][1..] == tail[1..m];
    }
  }

  /** Activation never removes an association. */
  lemma {:induction false} ActivatedAllGrows(contexts: Registry, bundles: seq<Bundle>)
    ensures forall id :: id in contexts ==> id in ActivatedAll(contexts, bundles)
    decreases |bundles|
  {
    if |bundles| > 0 {
      ActivatedAllGrows(contexts[bundles[0].id := ContextOf(bundles[0])], bundles[1..]);
    }
  }

  /** A bundle identity that is not activated keeps its association, or its absence of one. */
  lemma {:induction false} ActivatedAllFrame(contexts: Registry, bundles: seq<Bundle>, id: BundleId)
    requires forall j :: 0 <= j < |bundles| ==> bundles[j].id != id
    ensures id in ActivatedAll(contexts, bundles) <==> id in contexts
    ensures id in contexts ==> ActivatedAll(contexts, bundles)[id] == contexts[id]
    decreases |bundles|
  {
    if |bundles| > 0 {
      ActivatedAllFrame(contexts[bundles[0].id := ContextOf(bundles[0])], bundles[1..], id);
    }
  }

  /** Every activated bundle ends up with its own context when identities are not shared. */
  lemma {:induction false} ActivatedAllAssociates(contexts: Registry, bundles: seq<Bundle>, j: nat)
    requires j < |bundles|
    requires forall a, b :: 0 <= a < b < |bundles| ==> bundles[a].id != bundles[b].id
    ensures bundles[j].id in ActivatedAll(contexts, bundles)
    ensures ActivatedAll(contexts, bundles)[bundles[j].id] == ContextOf(bundles[j])
    decreases |bundles|
  {
    var contexts' := contexts[bundles[0].id := ContextOf(bundles[0])];
    if j == 0 {
      ActivatedAllFrame(contexts', bundles[1..], bundles[0].id);
    } else {
      ActivatedAllAssociates(contexts', bundles[1..], j - 1);
    }
  }

  /** Bundles not tried after the head keep their association untouched. */
  lemma {:induction false} UntriedBundlesUntouched(resolve: Resolver, chain: Chain, keys: seq<Key>, mode: Mode,
                                prev: Option<seq<Translation>>, contexts: Registry, id: BundleId)
    ensures var r := FormatWithFallback(resolve, chain, keys, mode, prev, contexts);
            r.Success? && (forall j :: 1 <= j < |r.value.steps| ==> chain[j].id != id) ==>
              (id in r.value.contexts <==> id in contexts) &&
              (id in contexts ==> r.value.contexts[id] == contexts[id])
  {
    var r := FormatWithFallback(resolve, chain, keys, mode, prev, contexts);
    if r.Success? && (forall j :: 1 <= j < |r.value.steps| ==> chain[j].id != id) {
      FormatWithFallbackIsRun(resolve, chain, keys, mode, prev, contexts);
      var n := |r.value.steps|;
      var activated := if n == 0 then [] else chain[1..n];
      forall j | 0 <= j < |activated| ensures activated[j].id != id {
        assert activated[j] == chain[j + 1];
      }
      ActivatedAllFrame(contexts, activated, id);
    }
  }

  lemma DistinctIdsOfSlice(chain: Chain, lo: nat, hi: nat)
    requires lo <= hi <= |chain|
    requires forall a, b :: 0 <= a < b < |chain| ==> chain[a].id != chain[b].id
    ensures forall a, b :: 0 <= a < b < hi - lo ==> chain[lo..hi][a].id != chain[lo..hi][b].id
  {
    forall a, b | 0 <= a < b < hi - lo ensures chain[lo..hi][a].id != chain[lo..hi][b].id {
      assert chain[lo..hi][a] == chain[lo + a] && chain[lo..hi][b] == chain[lo + b];
    }
  }

  /**
   With distinct bundle identities, no bundle is tried twice, and every bundle tried
   after the head is left associated with the context built from it.
   */
  lemma TriedBundlesActivatedOnce(resolve: Resolver, chain: Chain, keys: seq<Key>, mode: Mode,
                                  prev: Option<seq<Translation>>, contexts: Registry)
    requires forall a, b :: 0 <= a < b < |chain| ==> chain[a].id != chain[b].id
    ensures var r := FormatWithFallback(resolve, chain, keys, mode, prev, contexts);
            r.Success? ==>
              (forall a, b :: 0 <= a < b < |r.value.steps| ==> r.value.steps[a].bundle != r.value.steps[b].bundle) &&
              (forall j :: 1 <= j < |r.value.steps| ==>
                 chain[j].id in r.value.contexts && r.value.contexts[chain[j].id] == ContextOf(chain[j]))
  {
    var r := FormatWithFallback(resolve, chain, keys, mode, prev, contexts);
    if r.Success? {
      FormatWithFallbackIsRun(resolve, chain, keys, mode, prev, contexts);
      var n := |r.value.steps|;
      assert ActivatesTried(chain, contexts, r.value);
      forall j | 1 <= j < n
        ensures chain[j].id in r.value.contexts && r.value.contexts[chain[j].id] == ContextOf(chain[j])
      {
        var activated := chain[1..n];
        assert r.value.contexts == ActivatedAll(contexts, activated);
        assert activated[j - 1] == chain[j];
        DistinctIdsOfSlice(chain, 1, n);
        ActivatedAllAssociates(contexts, activated, j - 1);
      }
    }
  }

  lemma PrependStepsAssoc(a: seq<Step>, b: seq<Step>, r: Result<Outcome, Rejection>)
    ensures PrependSteps(a, PrependSteps(b, r)) == PrependSteps(a + b, r)
  {
    if r.Success? {
      assert a + (b + r.value.steps) == (a + b) + r.value.steps;
    }
  }

  lemma PrependNoSteps(r: Result<Outcome, Rejection>)
    ensures PrependSteps([], r) == r
  {
    if r.Success? {
      assert [] + r.value.steps == r.value.steps;
    }
  }

  /**
   The explicit-loop form of the fallback algorithm: walks the chain carrying the
   best-known translations, and computes exactly what the recursive form computes.
   */
  method FormatIteratively(resolve: Resolver, chain: Chain, keys: seq<Key>, mode: Mode,
                           prev: Option<seq<Translation>>, contexts: Registry) returns (r: Result<Outcome, Rejection>)
    ensures r == FormatWithFallback(resolve, chain, keys, mode, prev, contexts)
  {
    var rest, p, ctxs, steps := chain, prev, contexts, [];
    PrependNoSteps(FormatWithFallback(resolve, chain, keys, mode, prev, contexts));
    while true
      invariant PrependSteps(steps, FormatWithFallback(resolve, rest, keys, mode, p, ctxs))
                == FormatWithFallback(resolve, chain, keys, mode, prev, contexts)
      decreases |rest|
    {
      var head := HeadContext(rest, ctxs);
      if head.None? {
        if p.None? {
          return Failure(NoPreviousResults);
        }
        assert steps + [] == steps;
        return Success(Outcome(Firsts(p.value), ctxs, steps));
      }
      var resolution := resolve(head.value, keys, mode, p);
      var step := Step(rest[0], head.value, resolution);
      if |resolution.errors| == 0 {
        return Success(Outcome(Firsts(resolution.translations), ctxs, steps + [step]));
      }
      var tail := rest[1..];
      var ctxs' := FetchFirstBundle(tail, ctxs);
      var p' := Some(resolution.translations);
      PrependStepsAssoc(steps, [step], FormatWithFallback(resolve, tail, keys, mode, p', ctxs'));
      rest, ctxs, p, steps := tail, ctxs', p', steps + [step];
    }
  }
}
