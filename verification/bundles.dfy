/**
 Bundles, message contexts and the activation of a chain's head bundle
 (createContextFromBundle, fetchFirstBundle and equal in src/lib/dom/base.js).
 */
module Bundles {
  import opened Wrappers

  type Lang = string

  /** Stands in for the identity of a bundle object, the key of the `contexts` WeakMap. */
  type BundleId = nat

  /** A parsed resource as handed to `addMessages`; its contents belong to the resource layer. */
  datatype Resource = Resource(source: string)

  datatype FetchError = FetchError(reason: string)

  /** One settled entry of a bundle's fetch: the resource, or the `Error` it settled to. */
  datatype Fetched = Loaded(resource: Resource) | Failed(error: FetchError)

  /**
   A bundle: its identity, its language tag and the outcome of its fetch.
   The fetch is memoised by the bundle, so its outcome is a fixed field here.
   */
  datatype Bundle = Bundle(id: BundleId, lang: Lang, fetched: seq<Fetched>)

  /** A fallback chain, highest priority first. */
  type Chain = seq<Bundle>

  /**
   A message context, represented by everything it was built from: the language it
   was created for and the resources added to it, in the order they were added.
   What the context does with them belongs to the context collaborator.
   */
  datatype Context = Context(lang: Lang, messages: seq<Resource>)

  /** The bundle-to-context association (the `contexts` WeakMap). */
  type Registry = map<BundleId, Context>

  function CreateContext(lang: Lang): Context {
    Context(lang, [])
  }

  function AddMessages(ctx: Context, res: Resource): Context {
    ctx.(messages := ctx.messages + [res])
  }

  /** The resources of a fetch that did not settle to an error, in fetch order. */
  function NonErrors(fetched: seq<Fetched>): (rs: seq<Resource>)
    ensures |rs| <= |fetched|
    ensures forall r :: r in rs <==> Loaded(r) in fetched
  {
    if |fetched| == 0 then []
    else
      assert fetched == [fetched[0]] + fetched[1..];
      if fetched[0].Loaded? then [fetched[0].resource] + NonErrors(fetched[1..])
      else NonErrors(fetched[1..])
  }

  /** Filtering commutes with concatenation, so the relative order of resources is kept. */
  lemma {:induction false} NonErrorsAppend(a: seq<Fetched>, b: seq<Fetched>)
    ensures NonErrors(a + b) == NonErrors(a) + NonErrors(b)
    decreases |a|
  {
    if |a| == 0 {
      assert a + b == b;
    } else {
      assert (a + b)[0] == a[0];
      assert (a + b)[1..] == a[1..] + b;
      NonErrorsAppend(a[1..], b);
    }
  }

  /** A fetch with no errors contributes every resource, in order. */
  lemma {:induction false} NonErrorsOfCleanFetch(fetched: seq<Fetched>)
    requires forall i :: 0 <= i < |fetched| ==> fetched[i].Loaded?
    ensures |NonErrors(fetched)| == |fetched|
    ensures forall i :: 0 <= i < |fetched| ==> NonErrors(fetched)[i] == fetched[i].resource
    decreases |fetched|
  {
    if |fetched| > 0 {
      NonErrorsOfCleanFetch(fetched[1..]);
    }
  }

  /** The context that activating `bundle` builds. */
  function ContextOf(bundle: Bundle): (ctx: Context)
    ensures ctx.lang == bundle.lang
    ensures |ctx.messages| <= |bundle.fetched|
  {
    Context(bundle.lang, NonErrors(bundle.fetched))
  }

  /** The context built for a bundle holds a resource exactly when the fetch yielded it without an error. */
  lemma ContextOfHoldsLoaded(bundle: Bundle, r: Resource)
    ensures r in ContextOf(bundle).messages <==> Loaded(r) in bundle.fetched
  {
  }

  /**
   Activation of one bundle: create a context for the bundle's language, add every
   fetched resource that is not an error, in order, and record the association.
   */
  method CreateContextFromBundle(bundle: Bundle, contexts: Registry) returns (ctx: Context, contexts': Registry)
    ensures ctx == ContextOf(bundle)
    ensures ctx.lang == bundle.lang
    ensures ctx.messages == NonErrors(bundle.fetched)
    ensures contexts' == contexts[bundle.id := ctx]
  {
    ctx := CreateContext(bundle.lang);
    var i := 0;
    while i < |bundle.fetched|
      invariant 0 <= i <= |bundle.fetched|
      invariant ctx == Context(bundle.lang, NonErrors(bundle.fetched[..i]))
    {
      assert bundle.fetched[..i + 1] == bundle.fetched[..i] + [bundle.fetched[i]];
      NonErrorsAppend(bundle.fetched[..i], [bundle.fetched[i]]);
      match bundle.fetched[i] {
        case Loaded(res) => ctx := AddMessages(ctx, res);
        case Failed(_) =>
      }
      i := i + 1;
    }
    assert bundle.fetched[..i] == bundle.fetched;
    assert ctx == ContextOf(bundle);
    contexts' := contexts[bundle.id := ctx];
  }

  /**
   Activates the head of a chain. The promise resolves to the very chain it was
   given, so only the updated association is returned.
   */
  function FetchFirstBundle(chain: Chain, contexts: Registry): (r: Registry)
    ensures |chain| == 0 ==> r == contexts
    ensures |chain| > 0 ==> chain[0].id in r && r[chain[0].id] == ContextOf(chain[0])
    ensures forall id :: id in contexts ==> id in r
    ensures forall id :: id in r && (|chain| == 0 || id != chain[0].id) ==> id in contexts && r[id] == contexts[id]
  {
    if |chain| == 0 then contexts
    else contexts[chain[0].id := ContextOf(chain[0])]
  }

  /** The context associated with the head bundle, if the chain has a head and it has one. */
  function HeadContext(chain: Chain, contexts: Registry): (r: Option<Context>)
    ensures r.Some? <==> |chain| > 0 && chain[0].id in contexts
    ensures r.Some? ==> r.value == contexts[chain[0].id]
  {
    if |chain| > 0 && chain[0].id in contexts then Some(contexts[chain[0].id]) else None
  }

  /** The language tags of a chain, in order. */
  function Langs(chain: Chain): (ls: seq<Lang>)
    ensures |ls| == |chain|
    ensures forall i :: 0 <= i < |chain| ==> ls[i] == chain[i].lang
  {
    seq(|chain|, i requires 0 <= i < |chain| => chain[i].lang)
  }

  /** Chain equality by language tags, position by position. */
  function Equal(bundles1: Chain, bundles2: Chain): (r: bool)
    ensures r <==> Langs(bundles1) == Langs(bundles2)
  {
    |bundles1| == |bundles2| &&
    forall i :: 0 <= i < |bundles1| ==> bundles1[i].lang == bundles2[i].lang
  }

  lemma EqualIsEquivalence(a: Chain, b: Chain, c: Chain)
    ensures Equal(a, a)
    ensures Equal(a, b) <==> Equal(b, a)
    ensures Equal(a, b) && Equal(b, c) ==> Equal(a, c)
  {
  }

  /** Equality looks at nothing but the tags: identities and fetched resources may differ. */
  lemma EqualIgnoresResources(a: Chain, b: Chain)
    requires |a| == |b|
    requires forall i :: 0 <= i < |a| ==> a[i].lang == b[i].lang
    ensures Equal(a, b)
  {
  }

  lemma EqualNeedsSameLength(a: Chain, b: Chain)
    requires |a| != |b|
    ensures !Equal(a, b)
  {
  }
}
