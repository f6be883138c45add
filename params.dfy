/** The per-request route-parameter store: a fixed-capacity, append-only set of
    slots that the router fills while matching a path and that handlers read. */
module ParamStore {

  /** One route variable as ForEach hands it to its callback. */
  datatype Param = Param(key: string, value: string)

  /** The route's key list, the `*[]string` that every store bound to the same
      route shares. The router never changes it after registration, so the
      list is immutable here and shared by reference, never copied. */
  class KeyList {
    const names: seq<string>

    constructor (names: seq<string>)
      ensures this.names == names
    {
      this.names := names;
    }
  }

  /** j is the first position of k in ks. */
  predicate FirstMatch(ks: seq<string>, k: string, j: int)
  {
    0 <= j < |ks| && ks[j] == k && forall m :: 0 <= m < j ==> ks[m] != k
  }

  /** No key appears twice: the router builds route key lists this way. */
  predicate Distinct(ks: seq<string>)
  {
    forall a, b :: 0 <= a < b < |ks| ==> ks[a] != ks[b]
  }

  /** Reference definition of a lookup over parallel key and value lists:
      the value of the first matching key, "" when none matches. */
  function Lookup(ks: seq<string>, vs: seq<string>, k: string): string
    requires |ks| == |vs|
    decreases |ks|
  {
    if ks == [] then ""
    else if ks[0] == k then vs[0]
    else Lookup(ks[1..], vs[1..], k)
  }

  /** Lookup returns the value at the first match, and "" exactly when no key matches. */
  lemma {:induction false} LookupIsFirstMatch(ks: seq<string>, vs: seq<string>, k: string)
    requires |ks| == |vs|
    ensures k !in ks ==> Lookup(ks, vs, k) == ""
    ensures forall j :: FirstMatch(ks, k, j) ==> Lookup(ks, vs, k) == vs[j]
  {
    if ks != [] && ks[0] != k {
      LookupIsFirstMatch(ks[1..], vs[1..], k);
      forall j | FirstMatch(ks, k, j)
        ensures Lookup(ks, vs, k) == vs[j]
      {
        assert FirstMatch(ks[1..], k, j - 1);
      }
    }
  }

  /** With distinct keys, looking up the j-th key yields the j-th value. */
  lemma {:induction false} LookupDistinct(ks: seq<string>, vs: seq<string>, j: nat)
    requires |ks| == |vs| && Distinct(ks) && j < |ks|
    ensures Lookup(ks, vs, ks[j]) == vs[j]
  {
    LookupIsFirstMatch(ks, vs, ks[j]);
    assert FirstMatch(ks, ks[j], j);
  }

  /** A store of route variables for one request (the Go struct `Params`). */
  class Params {
    /** Write cursor: the next slot appendValue fills. */
    var i: nat
    /** Capacity, fixed when the store is created. */
    const max: nat
    /** The bound route key list; null until setKeys. */
    var keys: KeyList?
    /** Backing storage of the `values` slice; Copy shares it. */
    const values: array<string>
    /** Length of the `values` slice, at most the capacity of its backing storage. */
    var len: nat

    /** The keys in force: none when no key list is bound. */
    function Names(): seq<string>
      reads this
    {
      if keys == null then [] else keys.names
    }

    /** The store's invariant: the backing storage has room for `max`
        values, the cursor never passes the capacity and the `values`
        slice is exactly as long as the bound key list. */
    ghost predicate Valid()
      reads this
    {
      && values.Length == max
      && i <= max
      && len == |Names()|
      && len <= values.Length
    }

    /** The `values` slice: the first `len` slots of the backing storage. */
    ghost function Values(): (vs: seq<string>)
      reads this, values
      requires Valid()
      ensures |vs| == |Names()|
    {
      values[..len]
    }

    /** The struct literal: a store with exactly these fields. */
    constructor Literal(i: nat, max: nat, keys: KeyList?, values: array<string>, len: nat)
      ensures this.i == i && this.max == max && this.keys == keys
      ensures this.values == values && this.len == len
    {
      this.i := i;
      this.max := max;
      this.keys := keys;
      this.values := values;
      this.len := len;
    }

    /** Binds the route's key list (shared, not copied) and reslices `values`
        to its length; the cursor is left where it was. Reslicing past the
        capacity panics, hence the requirement. */
    method SetKeys(k: KeyList)
      requires Valid()
      requires |k.names| <= max
      modifies this`keys, this`len
      ensures Valid()
      ensures keys == k && Names() == k.names && len == |k.names|
      ensures i == old(i)
    {
      keys := k;
      len := |k.names|;
    }

    /** Writes v at the cursor and advances it; once the cursor has reached
        the capacity the value is silently dropped. Writing past the `values`
        slice panics, hence the requirement. */
    method AppendValue(v: string)
      requires Valid()
      requires i < max ==> i < len
      modifies this`i, values
      ensures Valid() && keys == old(keys) && len == old(len)
      ensures old(i) >= max ==> i == old(i) && values[..] == old(values[..])
      ensures old(i) < max ==> i == old(i) + 1 && values[..] == old(values[..])[old(i) := v]
    {
      if i >= max {
        return;
      }
      values[i] := v;
      i := i + 1;
    }

    /** Empties the store for reuse: cursor 0, no keys, an empty `values`
        slice over the same backing storage. */
    method Reset()
      requires Valid()
      modifies this`i, this`keys, this`len
      ensures Valid()
      ensures i == 0 && keys == null && len == 0 && Names() == []
    {
      i := 0;
      keys := null;
      len := 0;
    }

    /** The value bound to the first occurrence of k among the keys, or ""
        when no keys are bound or none matches. */
    method Get(k: string) returns (r: string)
      requires Valid()
      ensures keys == null ==> r == ""
      ensures k !in Names() ==> r == ""
      ensures forall j :: FirstMatch(Names(), k, j) ==> r == values[j]
      ensures r == Lookup(Names(), Values(), k)
    {
      LookupIsFirstMatch(Names(), Values(), k);
      if keys != null {
        var names := keys.names;
        var j := 0;
        while j < |names|
          invariant 0 <= j <= |names|
          invariant forall m :: 0 <= m < j ==> names[m] != k
        {
          if names[j] == k {
            assert FirstMatch(names, k, j);
            return values[j];
          }
          j := j + 1;
        }
      }
      return "";
    }

    /** A new store with the same fields. It is a shallow copy: the key list
        and the backing storage of `values` are shared with this store. */
    method Copy() returns (cp: Params)
      ensures fresh(cp)
      ensures cp.i == i && cp.max == max && cp.keys == keys && cp.len == len
      ensures cp.values == values
      ensures Valid() ==> cp.Valid() && cp.Values() == Values()
    {
      cp := new Params.Literal(i, max, keys, values, len);
    }

    /** Calls f on every bound pair, from the last key down to the first. The
        result of f is discarded, so every pair is visited; `visited` records
        the calls in the order they are made. */
    method ForEach(f: (string, string) -> bool) returns (visited: seq<Param>)
      requires Valid()
      ensures keys == null ==> visited == []
      ensures |visited| == |Names()|
      ensures forall t :: 0 <= t < |visited| ==>
                visited[t] == Param(Names()[|visited| - 1 - t], values[|visited| - 1 - t])
    {
      visited := [];
      if keys != null {
        var names := keys.names;
        var j := |names| - 1;
        while j >= 0
          invariant -1 <= j < |names|
          invariant |visited| == |names| - 1 - j
          invariant forall t :: 0 <= t < |visited| ==>
                      visited[t] == Param(names[|names| - 1 - t], values[|names| - 1 - t])
        {
          var _ := f(names[j], values[j]);
          visited := visited + [Param(names[j], values[j])];
          j := j - 1;
        }
      }
    }
  }

  /** newParams: an empty store with room for cap values; the backing storage
      is zero-filled and the `values` slice is empty. */
  method NewParams(cap: nat) returns (p: Params)
    ensures fresh(p) && fresh(p.values)
    ensures p.Valid()
    ensures p.i == 0 && p.max == cap && p.keys == null && p.len == 0
    ensures p.values.Length == cap
    ensures forall j :: 0 <= j < cap ==> p.values[j] == ""
  {
    var backing := new string[cap](_ => "");
    p := new Params.Literal(0, cap, null, backing, 0);
  }
}
