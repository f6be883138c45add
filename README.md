# Route-parameter store of the `dune` HTTP router

This project models, in Dafny, the per-request route-parameter store of the
router package (`param.go`). During matching, the router fills the store with
the values of a route's path variables. A handler later reads them back
through `Vars`.

- `ParamStore` (params.dfy) models the `Params` struct. It is a class.
  - `i` is the write cursor and `max` the capacity.
  - `keys` is a shared reference to the route's key list. `KeyList` stands for
    the `*[]string`. It is immutable and is shared, never copied.
  - `values` is the slice's backing array, allocated with room for `max`
    strings. `len` is the slice's length.
  - `Valid()` is the invariant every operation keeps. The backing array holds
    `max` slots. `0 <= i <= max`. The `values` slice is exactly as long as the
    bound key list, and has length 0 when no list is bound.
  - `SetKeys`, `AppendValue` and `Reset` update these fields in place.
  - `Get` and `ForEach` are the source's index loops, proved against the
    first-match predicate `FirstMatch`, the reference lookup `Lookup` and the
    reverse visiting order.
  - `Copy` makes a new object that shares the backing array.
- `ParamsContext` (context.dfy) models the context helpers and `Vars`.
  - A context is a map from keys to values. `ParamsKey` is the private token.
  - `Value` keeps three cases apart: nothing bound (`Nil`), a `*Params` (which
    may be a nil pointer) and a value of another type.
- `ParamScenarios` (scenarios.dfy) drives whole stores through the documented
  sequences and states what a handler then observes. These sequences are: the
  `id`/`slug` lookup, binding and filling any route, reverse visiting, dropped overflow, reset and reuse,
  aliasing through `Copy`, and the `Vars` fallback.

Behaviour a reader could expect otherwise, modelled as the code has it:

- `Copy` copies the struct, so the copy shares the backing array of `values`
  with the original (param.go:59-63). It is not an independent copy of the
  values. A slot that one store writes can be seen through the other
  (`CopySharesValues`).
- `ForEach` discards the callback's `bool` result (param.go:68). There is no
  early stop.
- After `newParams` the `values` slice has length 0, not `cap`
  (param.go:25). Only its backing array has room for `cap` values.
- The type assertion in `paramsFromCtx` succeeds on a nil `*Params`
  (param.go:84). So when `withParamsCtx` bound a nil `*Params`, `Vars`
  returns nil rather than `emptyParams`. `Vars` states this case.
- `hasParamsCtx` tests only for a non-nil value (param.go:80). A value of
  another type under the token makes it true while `paramsFromCtx` fails;
  `HasParamsCtx` states this case.

Where Go would panic, the model has a precondition instead:

- `setKeys` reslices past the capacity when the key list is longer than
  `max` (param.go:31).
- `appendValue` indexes past the `values` slice while the cursor is below
  `max` but not below `len(values)` (param.go:38).
- `make` is given a negative capacity (param.go:25). The capacity is a `nat`.
- `setKeys(nil)` dereferences a nil pointer at `*keys` (param.go:31). The
  `KeyList` parameter of `SetKeys` is non-null.
- `Get` or `ForEach` on a nil `*Params` dereferences it at `p.keys`
  (param.go:49, 66). This is the nil that `Vars` returns when a nil `*Params`
  was bound. The receiver of every `Params` method is non-null.

## Model

| member | source | states |
|---|---|---|
| `ParamStore.NewParams` | param.go:20-27 | a fresh store with cursor 0, capacity `cap`, no keys and an empty `values` slice, over a fresh zero-filled backing array of `cap` slots; the invariant holds |
| `ParamStore.Params.Literal` | param.go:13-18 | the composite literal: a store whose five fields are exactly the given ones (used by `newParams` and by `Copy`) |
| `ParamStore.KeyList.constructor` | param.go:16 | a route key list holds exactly the given names; stores refer to it by reference |
| `ParamStore.Params.Values` | param.go:17 | the `values` slice is as long as the bound key list, so every key has a value slot |
| `ParamStore.Params.SetKeys` | param.go:29-32 | requires the key list to fit the capacity; afterwards keys are exactly that list (same reference), the slice length is its length, the cursor is unchanged, the backing array is untouched and the invariant holds |
| `ParamStore.Params.AppendValue` | param.go:34-40 | at or past the capacity nothing changes at all; otherwise (requiring the cursor to lie inside the slice) exactly slot `i` becomes `v` and the cursor advances by one; keys and length are unchanged and `0 <= i <= max` is preserved |
| `ParamStore.Params.Reset` | param.go:42-46 | cursor 0, keys absent, slice length 0, with the same backing array and its contents untouched |
| `ParamStore.Params.Get` | param.go:48-57 | the value at the first index whose key equals `k`; `""` when no keys are bound or no key matches; equal to the reference `Lookup` over keys and values |
| `ParamStore.LookupIsFirstMatch` | param.go:48-57 | the reference lookup returns the value at the first matching key and `""` when the key is absent |
| `ParamStore.LookupDistinct` | param.go:48-57 | with distinct keys, looking up the j-th key yields the j-th value |
| `ParamStore.Params.Copy` | param.go:59-63 | a fresh store with the same cursor, capacity, key reference and slice length, and the SAME backing array; it is valid and shows the same values |
| `ParamStore.Params.ForEach` | param.go:65-71 | exactly one call per bound pair, the t-th call on pair `len-1-t` (reverse index order), whatever the callback returns; no call when no keys are bound |
| `ParamsContext.ValueOf` | param.go:80 | a context lookup of an unbound key yields nil |
| `ParamsContext.ParamsFromCtx` | param.go:83-86 | `(ps, true)` exactly when a `*Params` (maybe nil) is bound under the private token; `(nil, false)` when nothing or a value of another type is bound |
| `ParamsContext.HasParamsCtx` | param.go:79-81 | true exactly when the private token is bound to a non-nil value; so true whenever `paramsFromCtx` succeeds, and also when a value of another type is bound, where `paramsFromCtx` fails |
| `ParamsContext.WithParamsCtx` | param.go:75-77 | in the derived context `paramsFromCtx` returns `(ps, true)` and `hasParamsCtx` holds; every other key keeps its binding |
| `ParamsContext.Vars` | param.go:91-98 | the bound `*Params` when there is one; `emptyParams` when nothing or a value of another type is bound; nil only when a nil `*Params` was bound |
| `ParamScenarios.IdSlugLookup` | param.go:20-57 | capacity 2, keys `[id, slug]`, appends `42` and `post-title`: `Get` gives `42`, `post-title` and `""` for `missing` |
| `ParamScenarios.BindValues` | param.go:29-40 | from cursor 0, binding keys `K` and appending `v0..v(n-1)` (n = len(K)) leaves the `values` slice exactly `v0..v(n-1)` with the cursor at n; with distinct keys, the lookup of `K[j]` is `v[j]` for every j |
| `ParamScenarios.BindThenGet` | param.go:20-57 | for any route with distinct keys and any values, a store sized to the route, bound and filled, answers `Get(K[j]) == v[j]` |
| `ParamScenarios.ReverseVisit` | param.go:65-71 | keys `[a, b, c]` with values `[1, 2, 3]` are visited as `(c,3), (b,2), (a,1)` for any callback |
| `ParamScenarios.OverflowDropped` | param.go:34-40 | appends past the capacity are dropped silently: the first value stays and the cursor stops at the capacity |
| `ParamScenarios.ResetForgets` | param.go:42-57 | after `reset` a previous key yields `""`; binding again reuses the slots |
| `ParamScenarios.CopySharesValues` | param.go:59-63 | the copy's append into a slot inside the original's slice is seen by the original; resetting the copy leaves the original's cursor, keys and values alone |
| `ParamScenarios.BoundThenRead` | param.go:75-98 | a store bound with `withParamsCtx` is the one `Vars` returns, with its values |
| `ParamScenarios.UnboundVarsInert` | param.go:88-98 | with nothing bound, `Vars` gives the capacity-0 `emptyParams`, on which appending stores nothing, lookups give `""` and `ForEach` makes no call |

## Left out

- ParamStore.Params.ForEach: the callback is a pure function, so what a Go callback does besides returning a `bool` is not modelled. The model records the calls made, in order, as the `visited` trace.
- `Param` struct (param.go:8-11): no code uses it. The `Param` datatype here is only the pair that ForEach passes to its callback.
- The key list is read-only here. Go would let the router mutate the shared `*[]string` after binding it. The package relies on the router never doing so, and the model builds that in.
- `context.Context` internals: the chain of parent contexts and `WithValue` are reduced to a map with update. `http.Request` is reduced to its context.
- `emptyParams` is a package-level variable built by `newParams(0)`. Dafny has no allocated globals, so `Vars` takes it as a parameter and `UnboundVarsInert` builds it with `NewParams(0)`.
- That `emptyParams` is safe to share between goroutines (param.go:88) is a concurrency claim and is not modelled. What is modelled: on a capacity-0 store `AppendValue` never changes anything, and `SetKeys` can bind only an empty list.
- The route-matching code that calls `setKeys`/`appendValue`, and the example application (example/02-group/v2.go), are not part of this model.
- Go's fixed-width `int` is not modelled. The cursor never exceeds the capacity, so it cannot overflow.
