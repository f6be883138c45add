/** Whole-store behaviour: what the router and a handler observe when they
    drive a store through its operations in sequence. */
module ParamScenarios {
  import opened ParamStore
  import opened ParamsContext

  /** Route `/posts/:id/:slug` matched against `/posts/42/post-title`. */
  method IdSlugLookup() returns (id: string, slug: string, missing: string)
    ensures id == "42" && slug == "post-title" && missing == ""
  {
    var p := NewParams(2);
    var k := new KeyList(["id", "slug"]);
    p.SetKeys(k);
    p.AppendValue("42");
    p.AppendValue("post-title");
    id := p.Get("id");
    slug := p.Get("slug");
    missing := p.Get("missing");
  }

  /** The router's write pattern: bind a route's keys to a store with an
      empty cursor, then append one value per key. Afterwards the `values`
      slice is exactly the appended values and, with distinct keys, each key
      finds its own value. */
  method BindValues(p: Params, k: KeyList, vs: seq<string>)
    requires p.Valid() && p.i == 0
    requires |vs| == |k.names| <= p.max
    modifies p, p.values
    ensures p.Valid() && p.keys == k && p.i == |vs|
    ensures p.Values() == vs
    ensures Distinct(k.names) ==>
              forall j :: 0 <= j < |vs| ==> Lookup(p.Names(), p.Values(), k.names[j]) == vs[j]
  {
    p.SetKeys(k);
    var j := 0;
    while j < |vs|
      invariant 0 <= j <= |vs|
      invariant p.Valid() && p.keys == k && p.i == j && p.len == |vs|
      invariant p.values[..j] == vs[..j]
    {
      p.AppendValue(vs[j]);
      j := j + 1;
    }
    assert p.Values() == vs && p.Names() == k.names;
    if Distinct(k.names) {
      forall t | 0 <= t < |vs|
        ensures Lookup(p.Names(), p.Values(), k.names[t]) == vs[t]
      {
        LookupDistinct(k.names, vs, t);
      }
    }
  }

  /** For any route with distinct keys: a store sized to the route, bound to
      its keys and given one value per key, answers Get(K[j]) with the j-th
      value. */
  method BindThenGet(names: seq<string>, vs: seq<string>, j: nat) returns (got: string)
    requires |vs| == |names| && Distinct(names) && j < |names|
    ensures got == vs[j]
  {
    var p := NewParams(|names|);
    var k := new KeyList(names);
    BindValues(p, k, vs);
    got := p.Get(names[j]);
  }

  /** Keys [a, b, c] with values [1, 2, 3] are visited as (c,3), (b,2), (a,1),
      whatever the callback answers. */
  method ReverseVisit(f: (string, string) -> bool) returns (visited: seq<Param>)
    ensures visited == [Param("c", "3"), Param("b", "2"), Param("a", "1")]
  {
    var p := NewParams(3);
    var k := new KeyList(["a", "b", "c"]);
    p.SetKeys(k);
    p.AppendValue("1");
    p.AppendValue("2");
    p.AppendValue("3");
    visited := p.ForEach(f);
  }

  /** Values appended past the capacity are dropped: the first one stays. */
  method OverflowDropped() returns (got: string, cursor: nat)
    ensures got == "1" && cursor == 1
  {
    var p := NewParams(1);
    var k := new KeyList(["id"]);
    p.SetKeys(k);
    p.AppendValue("1");
    p.AppendValue("2");
    p.AppendValue("3");
    got := p.Get("id");
    cursor := p.i;
  }

  /** After reset nothing is found, and a new binding reuses the same slots. */
  method ResetForgets() returns (before: string, after: string, reused: string)
    ensures before == "42" && after == "" && reused == "7"
  {
    var p := NewParams(1);
    var k := new KeyList(["id"]);
    p.SetKeys(k);
    p.AppendValue("42");
    before := p.Get("id");
    p.Reset();
    after := p.Get("id");
    p.SetKeys(k);
    p.AppendValue("7");
    reused := p.Get("id");
  }

  /** Copy shares the backing storage: a value the copy appends into a slot
      inside the original's `values` slice shows through the original, while
      resetting the copy leaves the original's cursor, keys and length alone. */
  method CopySharesValues() returns (seenByOriginal: string, originalAfterReset: string, cursor: nat, copyAfterReset: string)
    ensures seenByOriginal == "y"
    ensures originalAfterReset == "x" && cursor == 1
    ensures copyAfterReset == ""
  {
    var p := NewParams(2);
    var k := new KeyList(["a", "b"]);
    p.SetKeys(k);
    p.AppendValue("x");
    var cp := p.Copy();
    cp.AppendValue("y");
    seenByOriginal := p.Get("b");
    cp.Reset();
    originalAfterReset := p.Get("a");
    cursor := p.i;
    copyAfterReset := cp.Get("a");
  }

  /** A store bound into a request's context is the one Vars finds. */
  method BoundThenRead(ctx: Context, emptyParams: Params) returns (got: string)
    ensures got == "7"
  {
    var p := NewParams(1);
    var k := new KeyList(["id"]);
    p.SetKeys(k);
    p.AppendValue("7");
    var r := Request(WithParamsCtx(ctx, p));
    assert HasParamsCtx(r.ctx);
    var q := Vars(r, emptyParams);
    got := q.Get("id");
  }

  /** With no store bound, Vars yields emptyParams (newParams(0)): appending
      to it never stores anything, binding keys can only bind an empty list,
      and every lookup and visit finds nothing. */
  method UnboundVarsInert(r: Request, k: string, v: string, f: (string, string) -> bool)
    returns (got: string, visited: seq<Param>, cursor: nat)
    requires !HasParamsCtx(r.ctx)
    ensures got == "" && visited == [] && cursor == 0
  {
    var emptyParams := NewParams(0);
    var p := Vars(r, emptyParams);
    p.AppendValue(v);
    var none := new KeyList([]);
    p.SetKeys(none);
    p.AppendValue(v);
    got := p.Get(k);
    visited := p.ForEach(f);
    cursor := p.i;
  }
}
