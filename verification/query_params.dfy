/**
 * `URLSearchParams` as an ordered list of key/value pairs, with the methods
 * the components call: `getAll`, `get`, `append` and `delete`. Percent
 * encoding of the query string is not modelled.
 */
module QueryParams {
  import opened Wrappers

  datatype Param = Param(key: string, value: string)

  type Params = seq<Param>

  /** `params.getAll(k)`: the values stored under `k`, in order. */
  function GetAll(p: Params, k: string): (vs: seq<string>)
    ensures |vs| <= |p|
    ensures forall v :: v in vs <==> Param(k, v) in p
  {
    if p == [] then []
    else if p[0].key == k then [p[0].value] + GetAll(p[1..], k)
    else GetAll(p[1..], k)
  }

  /** `params.get(k)`: the first value stored under `k`, or null. */
  function Get(p: Params, k: string): (v: Option<string>)
    ensures v.None? <==> GetAll(p, k) == []
    ensures v.Some? ==> v.value == GetAll(p, k)[0]
  {
    if p == [] then None
    else if p[0].key == k then Some(p[0].value)
    else Get(p[1..], k)
  }

  /** `params.delete(k)`: every pair stored under `k` is dropped. */
  function Delete(p: Params, k: string): (r: Params)
    ensures GetAll(r, k) == []
    ensures forall q :: q in r <==> q in p && q.key != k
  {
    if p == [] then []
    else if p[0].key == k then Delete(p[1..], k)
    else [p[0]] + Delete(p[1..], k)
  }

  /** `vs.forEach(v => params.append(k, v))`. */
  function AppendAll(p: Params, k: string, vs: seq<string>): (r: Params)
    ensures |r| == |p| + |vs|
    ensures r[..|p|] == p
    ensures forall i :: 0 <= i < |vs| ==> r[|p| + i] == Param(k, vs[i])
    decreases |vs|
  {
    if vs == [] then p else AppendAll(p + [Param(k, vs[0])], k, vs[1..])
  }

  /** Reading a key from a concatenation reads each part in turn. */
  lemma {:induction false} GetAllConcat(p: Params, q: Params, k: string)
    ensures GetAll(p + q, k) == GetAll(p, k) + GetAll(q, k)
  {
    if p != [] {
      assert (p + q)[1..] == p[1..] + q;
      GetAllConcat(p[1..], q, k);
    } else {
      assert p + q == q;
    }
  }

  /** Deleting from a concatenation deletes from each part. */
  lemma {:induction false} DeleteConcat(p: Params, q: Params, k: string)
    ensures Delete(p + q, k) == Delete(p, k) + Delete(q, k)
  {
    if p != [] {
      assert (p + q)[1..] == p[1..] + q;
      DeleteConcat(p[1..], q, k);
    } else {
      assert p + q == q;
    }
  }

  /** The pairs appended under one key are read back, in order, after the
      values already stored under it; other keys read as before. */
  lemma {:induction false} GetAllAppendAll(p: Params, k: string, vs: seq<string>, j: string)
    ensures GetAll(AppendAll(p, k, vs), j) == GetAll(p, j) + (if j == k then vs else [])
    decreases |vs|
  {
    if vs != [] {
      GetAllAppendAll(p + [Param(k, vs[0])], k, vs[1..], j);
      GetAllConcat(p, [Param(k, vs[0])], j);
      assert GetAll([Param(k, vs[0])], j) == (if j == k then [vs[0]] else []);
      if j == k {
        assert [vs[0]] + vs[1..] == vs;
      }
    } else {
      assert GetAll(p, j) + [] == GetAll(p, j);
    }
  }

  /** Deleting a key after appending pairs under it deletes the new pairs too. */
  lemma {:induction false} DeleteAppendAll(p: Params, k: string, vs: seq<string>)
    ensures Delete(AppendAll(p, k, vs), k) == Delete(p, k)
    decreases |vs|
  {
    if vs != [] {
      DeleteAppendAll(p + [Param(k, vs[0])], k, vs[1..]);
      DeleteConcat(p, [Param(k, vs[0])], k);
      assert Delete(p, k) + [] == Delete(p, k);
    }
  }

  /** Deleting one key leaves the values of every other key untouched. */
  lemma {:induction false} GetAllDeleteOther(p: Params, k: string, j: string)
    requires j != k
    ensures GetAll(Delete(p, k), j) == GetAll(p, j)
  {
    if p != [] {
      GetAllDeleteOther(p[1..], k, j);
    }
  }

  /** Deleting the same key twice is deleting it once. */
  lemma {:induction false} DeleteIdempotent(p: Params, k: string)
    ensures Delete(Delete(p, k), k) == Delete(p, k)
  {
    if p != [] {
      DeleteIdempotent(p[1..], k);
    }
  }

  /** What a block of pairs appended under key `k` holds under key `j`: the
      reference answer the lemmas reading back a built query compare with. */
  function Under(j: string, k: string, vs: seq<string>): seq<string> {
    if j == k then vs else []
  }
}
