/**
 The `Localization` class of src/lib/dom/base.js with its promises flattened:
 every operation is a step on an explicit state holding the current
 (`interactive`) chain and the bundle-to-context association.
 */
module Localization {
  import opened Wrappers
  import opened Bundles
  import opened Fallback

  /**
   The injected `requestBundles` collaborator: `None` asks for the previously
   negotiated languages, `Some(langs)` negotiates the requested ones.
   */
  type BundleRequester = Option<seq<Lang>> -> Chain

  /** The settled `interactive` cell and the bundle-to-context association. */
  datatype State = State(interactive: Chain, contexts: Registry)

  /** The interactive chain's head, if any, has been activated. */
  predicate HeadActivated(s: State) {
    |s.interactive| == 0 || s.interactive[0].id in s.contexts
  }

  /** The constructor: negotiate the initial chain and activate its head. */
  function New(requestBundles: BundleRequester, contexts: Registry): (s: State)
    ensures s.interactive == requestBundles(None)
    ensures HeadActivated(s)
    ensures |s.interactive| > 0 ==> s.contexts[s.interactive[0].id] == ContextOf(s.interactive[0])
    ensures forall id :: id in contexts ==> id in s.contexts
    ensures s.contexts == FetchFirstBundle(s.interactive, contexts)
  {
    var bundles := requestBundles(None);
    State(bundles, FetchFirstBundle(bundles, contexts))
  }

  /**
   `requestLanguages`, which runs `changeLanguages` on the settled chain: keep the
   current chain when the new one carries the same tags, otherwise activate the new
   chain's head and install the new chain.
   */
  function RequestLanguages(requestBundles: BundleRequester, s: State, requestedLangs: seq<Lang>): (s': State)
    ensures Equal(s.interactive, requestBundles(Some(requestedLangs))) ==> s' == s
    ensures !Equal(s.interactive, requestBundles(Some(requestedLangs))) ==>
              s'.interactive == requestBundles(Some(requestedLangs)) &&
              s'.contexts == FetchFirstBundle(s'.interactive, s.contexts)
    ensures Equal(s'.interactive, requestBundles(Some(requestedLangs)))
    ensures HeadActivated(s) ==> HeadActivated(s')
  {
    var newBundles := requestBundles(Some(requestedLangs));
    if Equal(s.interactive, newBundles) then s
    else State(newBundles, FetchFirstBundle(newBundles, s.contexts))
  }

  /** Asking twice for the same languages changes nothing the second time. */
  lemma RequestLanguagesIdempotent(requestBundles: BundleRequester, s: State, requestedLangs: seq<Lang>)
    ensures var s' := RequestLanguages(requestBundles, s, requestedLangs);
            RequestLanguages(requestBundles, s', requestedLangs) == s'
  {
  }

  /**
   The chain comparison looks only at tags: a renegotiated chain with the same tags
   but other bundles or other resources is discarded and the old chain kept.
   */
  lemma RequestLanguagesIgnoresResources(requestBundles: BundleRequester, s: State, requestedLangs: seq<Lang>)
    requires |requestBundles(Some(requestedLangs))| == |s.interactive|
    requires forall i :: 0 <= i < |s.interactive| ==>
               requestBundles(Some(requestedLangs))[i].lang == s.interactive[i].lang
    ensures RequestLanguages(requestBundles, s, requestedLangs) == s
  {
    EqualIgnoresResources(s.interactive, requestBundles(Some(requestedLangs)));
  }

  /** Bare identifiers become (identifier, no arguments) tuples; tuples pass through. */
  function NormalizeKeys(keys: seq<Key>): (tuples: seq<Key>)
    ensures |tuples| == |keys|
    ensures forall i :: 0 <= i < |keys| ==> tuples[i].Tuple? && tuples[i].id == keys[i].id
    ensures forall i :: 0 <= i < |keys| ==> keys[i].Tuple? ==> tuples[i] == keys[i]
    ensures forall i :: 0 <= i < |keys| ==> keys[i].Id? ==> tuples[i].args == None
  {
    seq(|keys|, i requires 0 <= i < |keys| => if keys[i].Tuple? then keys[i] else Tuple(keys[i].id, None))
  }

  lemma NormalizeKeysIdempotent(keys: seq<Key>)
    ensures NormalizeKeys(NormalizeKeys(keys)) == NormalizeKeys(keys)
  {
  }

  /** `formatValues(...keys)`: normalise the keys and run the fallback loop on the current chain. */
  function FormatValues(resolve: Resolver, s: State, keys: seq<Key>): (r: Result<Outcome, Rejection>)
    ensures HeadActivated(s) ==> (r.Failure? <==> |s.interactive| == 0)
    ensures r.Success? ==> IsRun(resolve, s.interactive, NormalizeKeys(keys), ValueMode, None, s.contexts, r.value)
    ensures r.Success? && PreservesArity(resolve) ==> |r.value.values| == |keys|
  {
    FormatWithFallbackIsRun(resolve, s.interactive, NormalizeKeys(keys), ValueMode, None, s.contexts);
    FormatWithFallback(resolve, s.interactive, NormalizeKeys(keys), ValueMode, None, s.contexts)
  }

  /** `formatValue(id, args)`: the single value `formatValues` yields for the one key `(id, args)`. */
  function FormatValue(resolve: Resolver, s: State, id: string, args: Option<Args>): (r: Result<(Value, Registry), Rejection>)
    requires PreservesArity(resolve)
    ensures HeadActivated(s) ==> (r.Failure? <==> |s.interactive| == 0)
    ensures r.Success? <==> FormatValues(resolve, s, [Tuple(id, args)]).Success?
    ensures r.Success? ==>
              var o := FormatValues(resolve, s, [Tuple(id, args)]).value;
              r.value == (o.values[0], o.contexts)
  {
    match FormatValues(resolve, s, [Tuple(id, args)])
    case Success(o) => Success((o.values[0], o.contexts))
    case Failure(e) => Failure(e)
  }

  /** `formatEntities(keys)`: the fallback loop in entity mode, on the keys exactly as given. */
  function FormatEntities(resolve: Resolver, s: State, keys: seq<Key>): (r: Result<Outcome, Rejection>)
    ensures HeadActivated(s) ==> (r.Failure? <==> |s.interactive| == 0)
    ensures r.Success? ==> IsRun(resolve, s.interactive, keys, EntityMode, None, s.contexts, r.value)
    ensures r.Success? && PreservesArity(resolve) ==> |r.value.values| == |keys|
  {
    FormatWithFallbackIsRun(resolve, s.interactive, keys, EntityMode, None, s.contexts);
    FormatWithFallback(resolve, s.interactive, keys, EntityMode, None, s.contexts)
  }

  /** Formatting never removes an association (it may replace one), so the interactive head stays activated. */
  lemma FormattingKeepsHeadActivated(resolve: Resolver, s: State, keys: seq<Key>, mode: Mode)
    requires HeadActivated(s)
    ensures var r := FormatWithFallback(resolve, s.interactive, keys, mode, None, s.contexts);
            r.Success? ==> HeadActivated(State(s.interactive, r.value.contexts))
  {
    var r := FormatWithFallback(resolve, s.interactive, keys, mode, None, s.contexts);
    if r.Success? {
      FormatWithFallbackIsRun(resolve, s.interactive, keys, mode, None, s.contexts);
      var n := |r.value.steps|;
      ActivatedAllGrows(s.contexts, if n == 0 then [] else s.interactive[1..n]);
    }
  }

  /**
   A first attempt without errors settles the call: one attempt on the head, its
   values, one per key, and no bundle activated.
   */
  lemma FirstAttemptSucceeds(resolve: Resolver, s: State, keys: seq<Key>)
    requires PreservesArity(resolve)
    requires |s.interactive| > 0 && s.interactive[0].id in s.contexts
    requires |resolve(s.contexts[s.interactive[0].id], NormalizeKeys(keys), ValueMode, None).errors| == 0
    ensures var r := FormatValues(resolve, s, keys);
            && r.Success?
            && |r.value.steps| == 1 && r.value.steps[0].bundle == s.interactive[0]
            && |r.value.values| == |keys|
            && r.value.values == Firsts(resolve(s.contexts[s.interactive[0].id], NormalizeKeys(keys), ValueMode, None).translations)
            && r.value.contexts == s.contexts
  {
  }

  /**
   A head that errs and a second bundle that does not: the head position is tried
   once, the second bundle is activated and supplies the values, and nothing further
   is touched.
   */
  lemma FallsBackToSecondBundle(resolve: Resolver, s: State, keys: seq<Key>)
    requires |s.interactive| > 1 && s.interactive[0].id in s.contexts
    requires var first := resolve(s.contexts[s.interactive[0].id], NormalizeKeys(keys), ValueMode, None);
             && |first.errors| > 0
             && |resolve(ContextOf(s.interactive[1]), NormalizeKeys(keys), ValueMode, Some(first.translations)).errors| == 0
    ensures var first := resolve(s.contexts[s.interactive[0].id], NormalizeKeys(keys), ValueMode, None);
            var second := resolve(ContextOf(s.interactive[1]), NormalizeKeys(keys), ValueMode, Some(first.translations));
            var r := FormatValues(resolve, s, keys);
            && r.Success?
            && |r.value.steps| == 2
            && r.value.steps[0].bundle == s.interactive[0]
            && r.value.steps[1].bundle == s.interactive[1]
            && r.value.values == Firsts(second.translations)
            && r.value.contexts == s.contexts[s.interactive[1].id := ContextOf(s.interactive[1])]
  {
    var keys' := NormalizeKeys(keys);
    var first := resolve(s.contexts[s.interactive[0].id], keys', ValueMode, None);
    var tail := s.interactive[1..];
    var contexts' := FetchFirstBundle(tail, s.contexts);
    assert HeadContext(tail, contexts') == Some(ContextOf(s.interactive[1]));
    var rest := FormatWithFallback(resolve, tail, keys', ValueMode, Some(first.translations), contexts');
    assert rest.Success? && |rest.value.steps| == 1 && rest.value.contexts == contexts';
    assert FormatValues(resolve, s, keys) == PrependSteps([Step(s.interactive[0], s.contexts[s.interactive[0].id], first)], rest);
  }

  /**
   With a resolver that reports errors on every input the chain is used up: every
   chain position is tried once, in order, and the values are the first components
   of the last attempt's translations.
   */
  lemma ExhaustedChainYieldsLastValues(resolve: Resolver, s: State, keys: seq<Key>)
    requires |s.interactive| > 0 && s.interactive[0].id in s.contexts
    requires forall ctx, ks, mode, prev :: |resolve(ctx, ks, mode, prev).errors| > 0
    ensures var r := FormatValues(resolve, s, keys);
            && r.Success?
            && |r.value.steps| == |s.interactive|
            && (forall i :: 0 <= i < |s.interactive| ==> r.value.steps[i].bundle == s.interactive[i])
            && r.value.values == Firsts(r.value.steps[|s.interactive| - 1].resolution.translations)
  {
    var r := FormatValues(resolve, s, keys);
    var n := |r.value.steps|;
    FeedsForwardResolves(resolve, NormalizeKeys(keys), ValueMode, None, r.value.steps, n - 1);
  }
}
