# Language fallback in the l20n DOM `Localization`

This project models the language-fallback engine of `src/lib/dom/base.js`.

- A `Localization` holds the current ("interactive") fallback chain of language bundles.
- Activating a chain means activating its head. The head bundle's fetched resources are fed into a fresh message context, with every `Error` skipped, and the bundle→context association is recorded.
- Formatting resolves a batch of keys against the head's context. When the context reports errors, the loop drops the head, activates the next bundle and retries. The partial translations are carried forward as `prev`.
- `requestLanguages` renegotiates the chain. A new chain whose language tags equal the old chain's tags, position by position, is discarded, so the old chain and its already-active head are kept.

Promises are flattened, so each operation is a pure function on an explicit state:

- `State(interactive, contexts)` holds the settled interactive chain and the bundle→context association.
- The `contexts` WeakMap becomes the explicit `Registry` map, keyed by a `BundleId` that stands for object identity.
- A message context is represented by what it was built from: the language given to `createContext` and the resources given to `addMessages`, in order.
- The format layer's batch resolver `keysFromContext` is a function-valued parameter (`Resolver`). The format layer promises one translation per key; the model states that promise as the assumption `PreservesArity` and requires it only where the source relies on it.

The main property is `Fallback.FormatWithFallbackIsRun`. It shows that every fulfilled call of the recursive loop is a run in the sense of the declarative predicate `IsRun`:

- Attempt `i` is made on `chain[i]`, so the chain is followed in order and no position is tried twice.
- There are at most `|chain|` attempts.
- Each attempt is fed the previous attempt's translations.
- Every attempt except the last reports errors. The last one reports none, or the chain is used up.
- The returned values are the first components of the last attempt's translations.
- The registry changes only by activating the bundles tried after the head.

`Fallback.FormatIteratively` is the explicit-loop form of the same algorithm, and it is proved to compute exactly what the recursion computes.

Two points of the program's behaviour shape the model:

- **Formatting with an empty chain.** `formatWithFallback` reaches `prev.map` with `prev` undefined (src/lib/dom/base.js:28), and the promise rejects with a `TypeError`. The model returns `Failure(NoPreviousResults)` in that case rather than excluding it by a precondition.
- **When the loop stops.** The loop stops at the first attempt that reports no errors, not once every key has a value.

## Model

| member | source | states |
|---|---|---|
| Bundles.NonErrors | src/lib/dom/base.js:77-78 | a resource is kept iff it settled to a non-`Error` entry of the fetch, and no more resources come out than went in |
| Bundles.NonErrorsAppend | src/lib/dom/base.js:77-79 | filtering out errors commutes with concatenation, so kept resources keep their fetch order |
| Bundles.NonErrorsOfCleanFetch | src/lib/dom/base.js:77-79 | a fetch without errors hands every resource to the context, position for position |
| Bundles.CreateContextFromBundle | src/lib/dom/base.js:74-82 | the loop computes exactly `ContextOf(bundle)`: the new context is tagged with the bundle's language and receives exactly its non-`Error` resources, filtered in fetch order; the association gains bundle→context and nothing else |
| Bundles.ContextOf | src/lib/dom/base.js:76-79 | the context built for a bundle is tagged with its language and holds no more resources than the fetch yielded |
| Bundles.ContextOfHoldsLoaded | src/lib/dom/base.js:76-79 | the context built for a bundle holds a resource iff the fetch yielded it without an `Error` |
| Bundles.HeadContext | src/lib/dom/base.js:25-27 | there is a head context iff the chain is non-empty and its head bundle has an association, and it is that association |
| Bundles.Langs | src/lib/dom/base.js:108 | the tag sequence has one entry per bundle, the bundle's `lang`, at the same position |
| Bundles.FetchFirstBundle | src/lib/dom/base.js:85-95 | an empty chain leaves the association unchanged; otherwise the head, and only the head, is associated with the context built from it; no association is lost |
| Bundles.Equal | src/lib/dom/base.js:106-109 | two chains are equal iff their sequences of language tags are equal |
| Bundles.EqualIsEquivalence | src/lib/dom/base.js:106-109 | chain equality is reflexive, symmetric and transitive |
| Bundles.EqualIgnoresResources | src/lib/dom/base.js:106-109 | chains with the same tag at every position are equal whatever their identities and fetched resources |
| Bundles.EqualNeedsSameLength | src/lib/dom/base.js:107 | chains of different lengths are never equal |
| Fallback.Firsts | src/lib/dom/base.js:36 | one value per tuple, each the tuple's first component, in order |
| Fallback.FormatWithFallback | src/lib/dom/base.js:24-49 | the call rejects exactly when there is no head context and no `prev`; it makes at most one attempt per chain position, so at most `|chain|` attempts; with a resolver that keeps arity and a `prev` of matching length it yields one value per key |
| Fallback.FormatWithFallbackIsRun | src/lib/dom/base.js:24-49 | every fulfilled call is a run: attempts follow the chain in order with carried-forward translations, stop at the first error-free attempt or at exhaustion, return the last attempt's values and activate only the bundles tried after the head |
| Fallback.NoContextReturnsPrevious | src/lib/dom/base.js:25-29 | with no head context (including the empty chain) the first components of `prev` come back unchanged and in order, with no attempt and no activation |
| Fallback.UntriedBundlesUntouched | src/lib/dom/base.js:43-48 | a bundle identity not tried after the head keeps its association, or its lack of one |
| Fallback.TriedBundlesActivatedOnce | src/lib/dom/base.js:43-48 | with distinct identities no bundle is tried twice, and each bundle tried after the head is left associated with the context built from it |
| Fallback.FormatIteratively | src/lib/dom/base.js:24-49 | the loop over the chain with an accumulator returns the same outcome as the recursive definition |
| Localization.New | src/lib/dom/base.js:8-16 | the interactive chain is the one negotiated without arguments, its head is activated with the context built from it, and every other association keeps its value |
| Localization.RequestLanguages | src/lib/dom/base.js:97-104 | a tag-equal new chain leaves the state unchanged (no activation); otherwise the new chain is installed and its head activated; the head stays activated; the installed chain carries the tags of the chain negotiated for the requested languages |
| Localization.RequestLanguagesIdempotent | src/lib/dom/base.js:97-104 | requesting the same languages a second time changes nothing |
| Localization.RequestLanguagesIgnoresResources | src/lib/dom/base.js:100-102 | a renegotiated chain with the current tags but other bundles or resources is discarded and the old chain kept |
| Localization.NormalizeKeys | src/lib/dom/base.js:58-60 | every key becomes a tuple with the same identifier; tuples pass through unchanged, bare identifiers get no arguments; count and order are kept |
| Localization.NormalizeKeysIdempotent | src/lib/dom/base.js:58-60 | normalising twice is normalising once |
| Localization.FormatValues | src/lib/dom/base.js:57-64 | with the head activated the call rejects iff the chain is empty; a fulfilled call is a value-mode run on the normalised keys with no `prev`, yielding one value per key when the resolver keeps arity |
| Localization.FormatValue | src/lib/dom/base.js:66-70 | fulfils exactly when `FormatValues` on the single key `(id, args)` does, with its first value |
| Localization.FormatEntities | src/lib/dom/base.js:51-55 | with the head activated the call rejects iff the chain is empty; a fulfilled call is an entity-mode run on the keys as given, with no `prev` |
| Localization.FormattingKeepsHeadActivated | src/lib/dom/base.js:43-48 | formatting never removes an association, so the interactive head stays activated |
| Localization.FirstAttemptSucceeds | src/lib/dom/base.js:31-37 | an error-free first attempt settles the call: one attempt on the head, its values one per key, no bundle activated |
| Localization.FallsBackToSecondBundle | src/lib/dom/base.js:43-48 | a failing head and an error-free second bundle give two attempts, the second bundle's values, and exactly one activation, of the second bundle |
| Localization.ExhaustedChainYieldsLastValues | src/lib/dom/base.js:25-29 | with a resolver that reports errors on every input, every chain position is tried once, in order, and the call still fulfils with the first components of the last attempt's translations |

## Left out

- Promises and the `interactive` cell as an asynchronous value. Each operation is a step on a settled `State`. A format call works on the chain it is given, so a call that captured the old chain is not redirected by a later language change.
- Warning output through `console.warn` (src/lib/dom/base.js:39-41). It has no effect on control flow. The errors that would be logged are kept in each attempt's `Step.resolution.errors`.
- `keysFromContext`, `valueFromContext` and `entityFromContext` (the format layer) are not part of this model. The resolver is a parameter, and the formatter choice is the `Mode` value.
- `createContext` and `ctx.addMessages` (the context collaborator) are not part of this model. A context is represented by its creation language and the resources added to it, in order.
- `requestBundles` is a total, deterministic function from an optional language list to a chain. Its own negotiation and any rejection of its promise are not modelled.
- The `properties` WeakMap that stores the collaborators. `requestBundles` is passed as a parameter; `createContext` is covered by the context representation described above.
- `bundle.fetch` is memoised by the bundle, so its settled outcome is a fixed field of `Bundle`. A rejection of the whole fetch is not modelled, because each resource settles separately to data or an `Error`.
- WeakMap identity and garbage collection (src/lib/dom/base.js:4-5). Bundle identity is an explicit `BundleId`, and the association is an explicit map.
- Localization.FormatValue: requires that the resolver keeps arity. Without that assumption the source's destructuring `([val]) => val` could yield `undefined`, which the model does not represent.
- `null` and `undefined` arguments are both `None`.
- The context lifecycle tests (`Env`, `require`, `destroy`, resource-cache retention). Their implementation is not part of this model.
- The example language-pack HTTP server and the build configuration are not part of the engine.
