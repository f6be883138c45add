/** Attaching a parameter store to a request context and reading it back.
    A context is modelled as a persistent map from keys to values; deriving
    a context with one more binding overlays that binding and leaves the
    parent untouched. */
module ParamsContext {
  import opened ParamStore

  /** Context keys. ParamsKey is the package's private token (`paramKey`);
      since only this package can name it, it differs from every key that
      other code binds, which are all ForeignKey values. */
  datatype Key = ParamsKey | ForeignKey(name: string)

  /** What a context lookup yields: nothing (Go's untyped nil), a `*Params`
      (possibly a nil pointer), or a value of some other type. */
  datatype Value = Nil | ParamsPtr(ps: Params?) | ForeignValue(tag: string)

  type Context = map<Key, Value>

  /** A request, seen only through its context. */
  datatype Request = Request(ctx: Context)

  /** ctx.Value(k): the bound value, Nil when k is not bound. */
  function ValueOf(ctx: Context, k: Key): (v: Value)
    ensures k !in ctx ==> v == Nil
  {
    if k in ctx then ctx[k] else Nil
  }

  /** paramsFromCtx: the `*Params` bound under the private token, with true;
      null and false when nothing is bound or the value has another type. */
  function ParamsFromCtx(ctx: Context): (res: (Params?, bool))
    ensures res.1 <==> ValueOf(ctx, ParamsKey).ParamsPtr?
    ensures res.1 ==> ValueOf(ctx, ParamsKey) == ParamsPtr(res.0)
    ensures !res.1 ==> res.0 == null
  {
    match ValueOf(ctx, ParamsKey)
    case ParamsPtr(ps) => (ps, true)
    case _ => (null, false)
  }

  /** hasParamsCtx: something other than nil is bound under the private token. */
  function HasParamsCtx(ctx: Context): (b: bool)
    ensures ParamsFromCtx(ctx).1 ==> b
    ensures ValueOf(ctx, ParamsKey).ForeignValue? ==> b && !ParamsFromCtx(ctx).1
    ensures b <==> ParamsKey in ctx && ctx[ParamsKey] != Nil
  {
    ValueOf(ctx, ParamsKey) != Nil
  }

  /** withParamsCtx: ctx with ps bound under the private token; every other
      key keeps its binding. */
  function WithParamsCtx(ctx: Context, ps: Params?): (r: Context)
    ensures ParamsFromCtx(r) == (ps, true)
    ensures HasParamsCtx(r)
    ensures forall k :: k != ParamsKey ==> ValueOf(r, k) == ValueOf(ctx, k)
  {
    ctx[ParamsKey := ParamsPtr(ps)]
  }

  /** Vars: the request's store, or the shared zero-capacity emptyParams when
      no store is bound. A nil `*Params` bound by the router is returned as is. */
  function Vars(r: Request, emptyParams: Params): (p: Params?)
    ensures !HasParamsCtx(r.ctx) ==> p == emptyParams
    ensures ValueOf(r.ctx, ParamsKey).ForeignValue? ==> p == emptyParams
    ensures ValueOf(r.ctx, ParamsKey).ParamsPtr? ==> p == ValueOf(r.ctx, ParamsKey).ps
    ensures p == null ==> ValueOf(r.ctx, ParamsKey) == ParamsPtr(null)
  {
    var (ps, ok) := ParamsFromCtx(r.ctx);
    if ok then ps else emptyParams
  }
}
