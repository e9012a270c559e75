/** Plain JavaScript objects as the ordered list of their own members, and the lodash helpers
    the pipeline applies to them. Lookup finds the first member with a key, so a list behaves
    like the object it stands for. */
module Objects {
  import opened Wrappers

  type Members<V> = seq<(string, V)>

  /** No key occurs twice: what every JavaScript object satisfies. */
  predicate Distinct<V>(m: Members<V>) {
    m == [] || (Lookup(m[1..], m[0].0).None? && Distinct(m[1..]))
  }

  /** `m[k]`, with None for `undefined`. */
  function Lookup<V>(m: Members<V>, k: string): (r: Option<V>)
    ensures r.Some? ==> (k, r.value) in m
  {
    if m == [] then None
    else if m[0].0 == k then Some(m[0].1)
    else Lookup(m[1..], k)
  }

  /** `m[k] = v`: an existing member keeps its place, a new one is appended. */
  function Set<V>(m: Members<V>, k: string, v: V): (r: Members<V>)
    ensures Lookup(r, k) == Some(v)
    ensures forall j :: j != k ==> Lookup(r, j) == Lookup(m, j)
  {
    if m == [] then [(k, v)]
    else if m[0].0 == k then [(k, v)] + m[1..]
    else [m[0]] + Set(m[1..], k, v)
  }

  /** `delete m[k]`. */
  function Remove<V>(m: Members<V>, k: string): (r: Members<V>)
    ensures Lookup(r, k) == None
    ensures forall j :: j != k ==> Lookup(r, j) == Lookup(m, j)
  {
    if m == [] then []
    else if m[0].0 == k then Remove(m[1..], k)
    else [m[0]] + Remove(m[1..], k)
  }

  /** `_.defaults(dst, src)`: every key of `src` that `dst` lacks is appended with the value
      `src` gives it; the members `dst` already has are left exactly as they are. */
  function Defaults<V>(dst: Members<V>, src: Members<V>): (r: Members<V>)
    ensures dst <= r
    ensures forall k :: Lookup(r, k) == if Lookup(dst, k).Some? then Lookup(dst, k) else Lookup(src, k)
    decreases |src|
  {
    if src == [] then dst
    else
      var (k, v) := src[0];
      var next := if Lookup(dst, k).Some? then dst else dst + [(k, v)];
      PrefixLookup(dst, next);
      LookupAppend(dst, k, v);
      Defaults(next, src[1..])
  }

  /** `_.extend(dst, src)`: every member of `src` is assigned into `dst` in order. */
  function Extend<V>(dst: Members<V>, src: Members<V>): (r: Members<V>)
    decreases |src|
  {
    if src == [] then dst else Extend(Set(dst, src[0].0, src[0].1), src[1..])
  }

  /** A member found in a prefix is found, unchanged, in the whole list. */
  lemma {:induction false} PrefixLookup<V>(a: Members<V>, b: Members<V>)
    requires a <= b
    ensures forall k :: Lookup(a, k).Some? ==> Lookup(b, k) == Lookup(a, k)
  {
    if a != [] {
      assert a[1..] <= b[1..];
      PrefixLookup(a[1..], b[1..]);
    }
  }

  lemma {:induction false} LookupAppend<V>(m: Members<V>, k: string, v: V)
    ensures Lookup(m, k).None? ==> Lookup(m + [(k, v)], k) == Some(v)
    ensures forall j :: Lookup(m, j).Some? ==> Lookup(m + [(k, v)], j) == Lookup(m, j)
    ensures forall j :: j != k ==> Lookup(m + [(k, v)], j) == Lookup(m, j)
  {
    if m != [] {
      assert (m + [(k, v)])[1..] == m[1..] + [(k, v)];
      LookupAppend(m[1..], k, v);
    }
  }

  /** Two objects with the same keys in the same order find a key at the same member. */
  lemma {:induction false} SameKeysLookup<V, W>(a: Members<V>, b: Members<W>, k: string) returns (i: nat)
    requires |a| == |b| && forall j :: 0 <= j < |a| ==> a[j].0 == b[j].0
    ensures Lookup(a, k).Some? <==> Lookup(b, k).Some?
    ensures Lookup(a, k).Some? ==> i < |a| && Lookup(a, k) == Some(a[i].1) && Lookup(b, k) == Some(b[i].1)
    decreases |a|
  {
    if a == [] || a[0].0 == k {
      i := 0;
    } else {
      assert forall j :: 0 <= j < |a[1..]| ==> a[1..][j].0 == a[j + 1].0 == b[j + 1].0 == b[1..][j].0;
      var j := SameKeysLookup(a[1..], b[1..], k);
      i := j + 1;
    }
  }

  /** On a name conflict `_.extend` keeps the value of `src`; other keys of `dst` survive. */
  lemma {:induction false} ExtendLookup<V>(dst: Members<V>, src: Members<V>)
    requires Distinct(src)
    ensures forall k :: Lookup(Extend(dst, src), k) == if Lookup(src, k).Some? then Lookup(src, k) else Lookup(dst, k)
    decreases |src|
  {
    if src != [] {
      ExtendLookup(Set(dst, src[0].0, src[0].1), src[1..]);
    }
  }

  /** Assigning into an object keeps its keys distinct. */
  lemma {:induction false} SetDistinct<V>(m: Members<V>, k: string, v: V)
    requires Distinct(m)
    ensures Distinct(Set(m, k, v))
  {
    if m != [] && m[0].0 != k {
      SetDistinct(m[1..], k, v);
      assert ([m[0]] + Set(m[1..], k, v))[1..] == Set(m[1..], k, v);
    } else if m != [] {
      assert ([(k, v)] + m[1..])[1..] == m[1..];
    }
  }

  lemma {:induction false} ExtendDistinct<V>(dst: Members<V>, src: Members<V>)
    requires Distinct(dst)
    ensures Distinct(Extend(dst, src))
    decreases |src|
  {
    if src != [] {
      SetDistinct(dst, src[0].0, src[0].1);
      ExtendDistinct(Set(dst, src[0].0, src[0].1), src[1..]);
    }
  }
}
