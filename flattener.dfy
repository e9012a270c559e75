/** `unnest`: the nested resource tree becomes one flat list of rooted resources. Every resource
    is rewritten on the way down (absolute `relativeUri`, inherited description and URI
    parameters, `relativeUriPathSegments` deleted), its children are flattened into the shared
    list, then its `resources` are deleted and it is put at the front of the list. */
module Flattener {
  import opened Wrappers
  import opened Objects
  import opened Text
  import opened JsonValues
  import opened Raml

  // ---- termination measure

  function Size(r: Resource): nat
    decreases r, 1
  {
    1 + SizeBelow(Kids(r), r)
  }

  function SizeBelow(src: seq<Resource>, ghost parent: Resource): nat
    requires forall x | x in src :: x < parent
    decreases parent, 0, |src|
  {
    if src == [] then 0
    else
      assert src[0] in src;
      assert forall x | x in src[1..] :: x in src;
      Size(src[0]) + SizeBelow(src[1..], parent)
  }

  /** The number of resources in a forest, nested ones included. */
  function SizeAll(src: seq<Resource>): nat {
    if src == [] then 0 else Size(src[0]) + SizeAll(src[1..])
  }

  lemma {:induction false} SizeBelowIsAll(src: seq<Resource>, parent: Resource)
    requires forall x | x in src :: x < parent
    ensures SizeBelow(src, parent) == SizeAll(src)
  {
    if src != [] {
      assert forall x | x in src[1..] :: x in src;
      SizeBelowIsAll(src[1..], parent);
    }
  }

  lemma ChildrenAreSmaller(r: Resource)
    ensures SizeAll(Kids(r)) < Size(r)
  {
    SizeBelowIsAll(Kids(r), r);
  }

  lemma {:induction false} SizeOfElement(src: seq<Resource>, i: nat)
    requires i < |src|
    ensures Size(src[i]) <= SizeAll(src)
  {
    if i > 0 { SizeOfElement(src[1..], i - 1); }
  }

  // ---- one resource

  /** Lines 194-196: with an inherited description, a resource's description becomes its own
      followed by `<hr>` and the inherited one, or just the inherited one. */
  function MergeDescription(own: Option<string>, inherited: Option<string>): Option<string> {
    if HasText(inherited) then Some((if HasText(own) then own.value + "<hr>" else "") + inherited.value)
    else own
  }

  /** Lines 197-199: inherited URI parameters are assigned into the resource's own with
      `_.extend`. */
  function MergeParams(own: Option<Members<TypeDef>>, inherited: Option<Members<TypeDef>>): Option<Members<TypeDef>> {
    if inherited.Some? then Some(Extend(own.GetOr([]), inherited.value)) else own
  }

  /** A resource after lines 193-200, before its children are visited. */
  function Merged(r: Resource, path: string, params: Option<Members<TypeDef>>, desc: Option<string>): Resource {
    r.(pathSegments := None,
       description := MergeDescription(r.description, desc),
       uriParameters := MergeParams(r.uriParameters, params),
       relativeUri := path + r.relativeUri)
  }

  // ---- the flattening, as the reverse of a post-order walk

  /** The rewritten resources in post-order: a resource's subtree, then the resource itself
      without its `resources`, then its later siblings. */
  function PostOrder(src: seq<Resource>, path: string, params: Option<Members<TypeDef>>, desc: Option<string>): seq<Resource>
    decreases SizeAll(src)
  {
    if src == [] then []
    else
      var m := Merged(src[0], path, params, desc);
      ChildrenAreSmaller(src[0]);
      PostOrder(Kids(m), m.relativeUri, m.uriParameters, m.description) + [m.(resources := NoChildren)] +
      PostOrder(src[1..], path, params, desc)
  }

  function Reverse<T>(s: seq<T>): (r: seq<T>)
    ensures |r| == |s|
  {
    if s == [] then [] else Reverse(s[1..]) + [s[0]]
  }

  lemma {:induction false} ReverseIndex<T>(s: seq<T>, i: nat)
    requires i < |s|
    ensures Reverse(s)[i] == s[|s| - 1 - i]
  {
    if i < |s| - 1 {
      ReverseIndex(s[1..], i);
    }
  }

  lemma {:induction false} ReverseAppend<T>(a: seq<T>, b: seq<T>)
    ensures Reverse(a + b) == Reverse(b) + Reverse(a)
    decreases |a|
  {
    if a == [] {
      assert a + b == b;
    } else {
      assert (a + b)[0] == a[0];
      assert (a + b)[1..] == a[1..] + b;
      ReverseAppend(a[1..], b);
    }
  }

  lemma {:induction false} PostOrderAppend(a: seq<Resource>, b: seq<Resource>, path: string,
                                           params: Option<Members<TypeDef>>, desc: Option<string>)
    ensures PostOrder(a + b, path, params, desc) == PostOrder(a, path, params, desc) + PostOrder(b, path, params, desc)
    decreases |a|
  {
    if a == [] {
      assert a + b == b;
    } else {
      assert (a + b)[0] == a[0];
      assert (a + b)[1..] == a[1..] + b;
      PostOrderAppend(a[1..], b, path, params, desc);
    }
  }

  /** One turn of the `forEach` in `unnest`: the next resource's subtree goes in front of what
      the earlier siblings produced, and the resource itself in front of that. */
  lemma UnnestStep(src: seq<Resource>, i: nat, path: string, params: Option<Members<TypeDef>>, desc: Option<string>)
    requires i < |src|
    ensures var m := Merged(src[i], path, params, desc);
            Reverse(PostOrder(src[..i + 1], path, params, desc)) ==
            [m.(resources := NoChildren)] + Reverse(PostOrder(Kids(m), m.relativeUri, m.uriParameters, m.description)) +
            Reverse(PostOrder(src[..i], path, params, desc))
  {
    var m := Merged(src[i], path, params, desc);
    var kids := PostOrder(Kids(m), m.relativeUri, m.uriParameters, m.description);
    PostOrderSnoc(src, i, path, params, desc);
    ReverseSnoc(PostOrder(src[..i], path, params, desc), kids, m.(resources := NoChildren));
  }

  lemma PostOrderSnoc(src: seq<Resource>, i: nat, path: string, params: Option<Members<TypeDef>>, desc: Option<string>)
    requires i < |src|
    ensures var m := Merged(src[i], path, params, desc);
            PostOrder(src[..i + 1], path, params, desc) ==
            PostOrder(src[..i], path, params, desc) +
            (PostOrder(Kids(m), m.relativeUri, m.uriParameters, m.description) + [m.(resources := NoChildren)])
  {
    assert src[..i + 1] == src[..i] + [src[i]];
    PostOrderAppend(src[..i], [src[i]], path, params, desc);
    assert [src[i]][1..] == [];
  }

  lemma ReverseSnoc<T>(p: seq<T>, kids: seq<T>, node: T)
    ensures Reverse(p + (kids + [node])) == [node] + Reverse(kids) + Reverse(p)
  {
    ReverseAppend(p, kids + [node]);
    ReverseAppend(kids, [node]);
    assert Reverse([node]) == [node] by {
      assert [node][1..] == [];
    }
  }

  lemma ConcatAssoc<T>(x: T, a: seq<T>, b: seq<T>, d: seq<T>)
    ensures [x] + (a + (b + d)) == ([x] + a + b) + d
  {
  }

  /** `unnest(src, dst, path, uriParameters, description)`: the resources of `src`, rewritten
      and flattened, are put in front of `dst`, in the reverse of their post-order. */
  method Unnest(src: seq<Resource>, dst: seq<Resource>, path: string,
                params: Option<Members<TypeDef>>, desc: Option<string>) returns (out: seq<Resource>)
    ensures out == Reverse(PostOrder(src, path, params, desc)) + dst
    decreases SizeAll(src)
  {
    out := dst;
    var i := 0;
    while i < |src|
      invariant 0 <= i <= |src|
      invariant out == Reverse(PostOrder(src[..i], path, params, desc)) + dst
    {
      var m := Merged(src[i], path, params, desc);
      ChildrenAreSmaller(src[i]);
      SizeOfElement(src, i);
      out := Unnest(Kids(m), out, m.relativeUri, m.uriParameters, m.description);
      out := [m.(resources := NoChildren)] + out;
      UnnestStep(src, i, path, params, desc);
      ConcatAssoc(m.(resources := NoChildren), Reverse(PostOrder(Kids(m), m.relativeUri, m.uriParameters, m.description)),
                  Reverse(PostOrder(src[..i], path, params, desc)), dst);
      i := i + 1;
    }
    assert src[..i] == src;
  }

  // ---- each flattened resource from its chain of ancestors

  /** The root-to-resource paths of a forest, in the same post-order. */
  function Chains(src: seq<Resource>): (cs: seq<seq<Resource>>)
    ensures forall j :: 0 <= j < |cs| ==> cs[j] != []
    decreases SizeAll(src)
  {
    if src == [] then []
    else
      ChildrenAreSmaller(src[0]);
      var below := Chains(Kids(src[0]));
      seq(|below|, j requires 0 <= j < |below| => [src[0]] + below[j]) + [[src[0]]] + Chains(src[1..])
  }

  /** The original `relativeUri` segments of a chain, root first. */
  function ConcatUris(chain: seq<Resource>): string {
    if chain == [] then "" else chain[0].relativeUri + ConcatUris(chain[1..])
  }

  /** The description the last resource of a chain ends with, pushed down from the root. */
  function ChainDescription(desc: Option<string>, chain: seq<Resource>): Option<string>
    decreases |chain|
  {
    if chain == [] then desc else ChainDescription(MergeDescription(chain[0].description, desc), chain[1..])
  }

  /** The URI parameters the last resource of a chain ends with, pushed down from the root. */
  function ChainParams(params: Option<Members<TypeDef>>, chain: seq<Resource>): Option<Members<TypeDef>>
    decreases |chain|
  {
    if chain == [] then params else ChainParams(MergeParams(chain[0].uriParameters, params), chain[1..])
  }

  /** The last resource of a chain as it leaves `unnest`. */
  function FromChain(path: string, params: Option<Members<TypeDef>>, desc: Option<string>, chain: seq<Resource>): Resource
    requires chain != []
  {
    chain[|chain| - 1].(relativeUri := path + ConcatUris(chain),
                        description := ChainDescription(desc, chain),
                        uriParameters := ChainParams(params, chain),
                        resources := NoChildren, pathSegments := None)
  }

  lemma FromChainStep(path: string, params: Option<Members<TypeDef>>, desc: Option<string>, r: Resource, c: seq<Resource>)
    requires c != []
    ensures var m := Merged(r, path, params, desc);
            FromChain(path, params, desc, [r] + c) == FromChain(m.relativeUri, m.uriParameters, m.description, c)
  {
    assert ([r] + c)[1..] == c;
    assert ([r] + c)[|[r] + c| - 1] == c[|c| - 1];
  }

  lemma {:induction false} PostOrderFromChains(src: seq<Resource>, path: string,
                                               params: Option<Members<TypeDef>>, desc: Option<string>)
    ensures |PostOrder(src, path, params, desc)| == |Chains(src)|
    ensures forall j :: 0 <= j < |Chains(src)| ==>
              PostOrder(src, path, params, desc)[j] == FromChain(path, params, desc, Chains(src)[j])
    decreases SizeAll(src)
  {
    if src != [] {
      var r := src[0];
      var m := Merged(r, path, params, desc);
      ChildrenAreSmaller(r);
      assert Kids(m) == Kids(r);
      var below := Chains(Kids(r));
      var rest := Chains(src[1..]);
      var kidsOut := PostOrder(Kids(m), m.relativeUri, m.uriParameters, m.description);
      var restOut := PostOrder(src[1..], path, params, desc);
      PostOrderFromChains(Kids(r), m.relativeUri, m.uriParameters, m.description);
      PostOrderFromChains(src[1..], path, params, desc);
      JoinedChains(path, params, desc, r, below, rest, kidsOut, restOut);
      assert PostOrder(src, path, params, desc) == kidsOut + [m.(resources := NoChildren)] + restOut;
      assert Chains(src) == seq(|below|, j requires 0 <= j < |below| => [r] + below[j]) + [[r]] + rest;
    }
  }

  /** The chains of a resource's subtree, of the resource alone and of its later siblings line
      up with what the walk produces for each of them. */
  lemma JoinedChains(path: string, params: Option<Members<TypeDef>>, desc: Option<string>, r: Resource,
                     below: seq<seq<Resource>>, rest: seq<seq<Resource>>, kidsOut: seq<Resource>, restOut: seq<Resource>)
    requires forall j :: 0 <= j < |below| ==> below[j] != []
    requires forall j :: 0 <= j < |rest| ==> rest[j] != []
    requires var m := Merged(r, path, params, desc);
             |kidsOut| == |below| &&
             forall j :: 0 <= j < |below| ==> kidsOut[j] == FromChain(m.relativeUri, m.uriParameters, m.description, below[j])
    requires |restOut| == |rest| && forall j :: 0 <= j < |rest| ==> restOut[j] == FromChain(path, params, desc, rest[j])
    ensures var post := kidsOut + [Merged(r, path, params, desc).(resources := NoChildren)] + restOut;
            var cs := seq(|below|, j requires 0 <= j < |below| => [r] + below[j]) + [[r]] + rest;
            |post| == |cs| && forall j :: 0 <= j < |cs| ==> cs[j] != [] && post[j] == FromChain(path, params, desc, cs[j])
  {
    var m := Merged(r, path, params, desc);
    var post := kidsOut + [m.(resources := NoChildren)] + restOut;
    var prefixed := seq(|below|, j requires 0 <= j < |below| => [r] + below[j]);
    var cs := prefixed + [[r]] + rest;
    PrefixedFromChain(path, params, desc, r, below, kidsOut);
    FromSingleChain(path, params, desc, r);
    forall j | 0 <= j < |cs|
      ensures cs[j] != [] && post[j] == FromChain(path, params, desc, cs[j])
    {
      if j < |below| {
        assert post[j] == kidsOut[j] && cs[j] == prefixed[j];
      } else if j == |below| {
        assert post[j] == m.(resources := NoChildren) && cs[j] == [r];
      } else {
        var k := j - |below| - 1;
        assert post[j] == restOut[k] && cs[j] == rest[k];
      }
    }
  }

  lemma PrefixedFromChain(path: string, params: Option<Members<TypeDef>>, desc: Option<string>, r: Resource,
                          below: seq<seq<Resource>>, kidsOut: seq<Resource>)
    requires forall j :: 0 <= j < |below| ==> below[j] != []
    requires var m := Merged(r, path, params, desc);
             |kidsOut| == |below| &&
             forall j :: 0 <= j < |below| ==> kidsOut[j] == FromChain(m.relativeUri, m.uriParameters, m.description, below[j])
    ensures var prefixed := seq(|below|, j requires 0 <= j < |below| => [r] + below[j]);
            forall j :: 0 <= j < |below| ==> kidsOut[j] == FromChain(path, params, desc, prefixed[j])
  {
    var prefixed := seq(|below|, j requires 0 <= j < |below| => [r] + below[j]);
    forall j | 0 <= j < |below|
      ensures kidsOut[j] == FromChain(path, params, desc, prefixed[j])
    {
      FromChainStep(path, params, desc, r, below[j]);
    }
  }

  lemma FromSingleChain(path: string, params: Option<Members<TypeDef>>, desc: Option<string>, r: Resource)
    ensures FromChain(path, params, desc, [r]) == Merged(r, path, params, desc).(resources := NoChildren)
  {
    assert [r][1..] == [];
    assert ConcatUris([r]) == r.relativeUri + ConcatUris([]);
    assert ChainDescription(desc, [r]) == ChainDescription(MergeDescription(r.description, desc), []);
    assert ChainParams(params, [r]) == ChainParams(MergeParams(r.uriParameters, params), []);
  }

  /** Every resource of the forest appears exactly once: one chain per resource. */
  lemma {:induction false} ChainsCount(src: seq<Resource>)
    ensures |Chains(src)| == SizeAll(src)
    decreases SizeAll(src)
  {
    if src != [] {
      ChildrenAreSmaller(src[0]);
      SizeBelowIsAll(Kids(src[0]), src[0]);
      ChainsCount(Kids(src[0]));
      ChainsCount(src[1..]);
    }
  }

  // ---- chains and the nodes they end at

  /** The resources along an index path: the first index picks a top-level resource, each
      later one a child among the `resources` of the one before; `None` when an index is out
      of range. A node of the forest is named by its (non-empty) index path. */
  function Along(src: seq<Resource>, p: seq<nat>): Option<seq<Resource>>
    decreases |p|
  {
    if p == [] then Some([])
    else if p[0] >= |src| then None
    else
      var rest := Along(Kids(src[p[0]]), p[1..]);
      if rest.None? then None else Some([src[p[0]]] + rest.value)
  }

  /** The index path of a node's next sibling's subtree, seen from the parent list. */
  function Shifted(p: seq<nat>): seq<nat>
    requires p != []
  {
    [p[0] + 1] + p[1..]
  }

  /** The index path of the node each chain ends at, in the order of `Chains`. */
  function Positions(src: seq<Resource>): (ps: seq<seq<nat>>)
    ensures forall j :: 0 <= j < |ps| ==> ps[j] != []
    decreases SizeAll(src)
  {
    if src == [] then []
    else
      ChildrenAreSmaller(src[0]);
      Assemble(Positions(Kids(src[0])), Positions(src[1..]))
  }

  /** The paths below the first resource, its own path `[0]`, then its later siblings' paths
      shifted by one. */
  function Assemble(below: seq<seq<nat>>, later: seq<seq<nat>>): (ps: seq<seq<nat>>)
    requires forall j :: 0 <= j < |later| ==> later[j] != []
    ensures forall j :: 0 <= j < |ps| ==> ps[j] != []
  {
    seq(|below|, j requires 0 <= j < |below| => [0] + below[j]) + [[0]] +
    seq(|later|, j requires 0 <= j < |later| => Shifted(later[j]))
  }

  lemma AssembleShape(pb: seq<seq<nat>>, pl: seq<seq<nat>>)
    requires forall j :: 0 <= j < |pl| ==> pl[j] != []
    ensures var ps := Assemble(pb, pl);
            |ps| == |pb| + 1 + |pl| && ps[|pb|] == [0] &&
            (forall j :: 0 <= j < |pb| ==> ps[j] == [0] + pb[j]) &&
            (forall k :: 0 <= k < |pl| ==> ps[|pb| + 1 + k] == Shifted(pl[k]))
  {
    var a := seq(|pb|, j requires 0 <= j < |pb| => [0] + pb[j]);
    var b := seq(|pl|, j requires 0 <= j < |pl| => Shifted(pl[j]));
    ConcatIndex(a, [0], b);
  }

  lemma ConcatIndex<T>(a: seq<T>, x: T, b: seq<T>)
    ensures var s := a + [x] + b;
            |s| == |a| + 1 + |b| && s[|a|] == x &&
            (forall j :: 0 <= j < |a| ==> s[j] == a[j]) &&
            (forall k :: 0 <= k < |b| ==> s[|a| + 1 + k] == b[k])
  {
  }

  lemma AlongFirst(src: seq<Resource>, q: seq<nat>)
    requires src != []
    ensures var a := Along(Kids(src[0]), q);
            Along(src, [0] + q) == if a.None? then None else Some([src[0]] + a.value)
  {
    assert ([0] + q)[0] == 0 && ([0] + q)[1..] == q;
  }

  lemma AlongShifted(src: seq<Resource>, q: seq<nat>)
    requires src != [] && q != []
    ensures Along(src, Shifted(q)) == Along(src[1..], q)
  {
    var p := Shifted(q);
    assert p[0] == q[0] + 1 && p[1..] == q[1..];
    if q[0] < |src[1..]| {
      assert src[p[0]] == src[1..][q[0]];
    }
  }

  /** The j-th chain is the list of resources along the j-th index path. */
  lemma {:induction false} PositionsFollowChains(src: seq<Resource>)
    ensures |Positions(src)| == |Chains(src)|
    ensures forall j :: 0 <= j < |Chains(src)| ==> Along(src, Positions(src)[j]) == Some(Chains(src)[j])
    decreases SizeAll(src)
  {
    if src != [] {
      ChildrenAreSmaller(src[0]);
      PositionsFollowChains(Kids(src[0]));
      PositionsFollowChains(src[1..]);
      FollowAssembled(src, Positions(Kids(src[0])), Positions(src[1..]), Chains(Kids(src[0])), Chains(src[1..]));
    }
  }

  lemma FollowAssembled(src: seq<Resource>, pb: seq<seq<nat>>, pl: seq<seq<nat>>,
                        cb: seq<seq<Resource>>, cl: seq<seq<Resource>>)
    requires src != []
    requires forall k :: 0 <= k < |pl| ==> pl[k] != []
    requires |pb| == |cb| && forall j :: 0 <= j < |pb| ==> Along(Kids(src[0]), pb[j]) == Some(cb[j])
    requires |pl| == |cl| && forall k :: 0 <= k < |pl| ==> Along(src[1..], pl[k]) == Some(cl[k])
    ensures var ps := Assemble(pb, pl);
            var cs := seq(|cb|, j requires 0 <= j < |cb| => [src[0]] + cb[j]) + [[src[0]]] + cl;
            |ps| == |cs| && forall j :: 0 <= j < |cs| ==> Along(src, ps[j]) == Some(cs[j])
  {
    var r := src[0];
    var ps := Assemble(pb, pl);
    var prefixed := seq(|cb|, j requires 0 <= j < |cb| => [r] + cb[j]);
    var cs := prefixed + [[r]] + cl;
    AssembleShape(pb, pl);
    ConcatIndex(prefixed, [r], cl);
    forall j | 0 <= j < |cs|
      ensures Along(src, ps[j]) == Some(cs[j])
    {
      if j < |pb| {
        assert ps[j] == [0] + pb[j] && cs[j] == [r] + cb[j];
        AlongFirst(src, pb[j]);
      } else if j == |pb| {
        assert ps[j] == [0] + [] && cs[j] == [r];
        AlongFirst(src, []);
        assert [r] + [] == [r];
      } else {
        var k := j - |pb| - 1;
        assert ps[|pb| + 1 + k] == Shifted(pl[k]) && cs[|prefixed| + 1 + k] == cl[k];
        AlongShifted(src, pl[k]);
      }
    }
  }

  /** No two chains end at the same node: their index paths differ. */
  lemma {:induction false} PositionsDistinct(src: seq<Resource>)
    ensures forall j, k :: 0 <= j < k < |Positions(src)| ==> Positions(src)[j] != Positions(src)[k]
    decreases SizeAll(src)
  {
    if src != [] {
      ChildrenAreSmaller(src[0]);
      PositionsDistinct(Kids(src[0]));
      PositionsDistinct(src[1..]);
      DistinctAssembled(Positions(Kids(src[0])), Positions(src[1..]));
    }
  }

  lemma DistinctAssembled(pb: seq<seq<nat>>, pl: seq<seq<nat>>)
    requires forall k :: 0 <= k < |pl| ==> pl[k] != []
    requires forall j :: 0 <= j < |pb| ==> pb[j] != []
    requires forall j, k :: 0 <= j < k < |pb| ==> pb[j] != pb[k]
    requires forall j, k :: 0 <= j < k < |pl| ==> pl[j] != pl[k]
    ensures var ps := Assemble(pb, pl);
            forall j, k :: 0 <= j < k < |ps| ==> ps[j] != ps[k]
  {
    var ps := Assemble(pb, pl);
    forall j, k | 0 <= j < k < |ps|
      ensures ps[j] != ps[k]
    {
      AssembleShape(pb, pl);
      if k < |pb| {
        SameHead(pb[j], pb[k]);
      } else if k == |pb| {
        assert ps[j] == [0] + pb[j];
      } else if j <= |pb| {
        assert ps[j][0] == 0;
        assert ps[|pb| + 1 + (k - |pb| - 1)] == Shifted(pl[k - |pb| - 1]);
      } else {
        assert ps[|pb| + 1 + (j - |pb| - 1)] == Shifted(pl[j - |pb| - 1]);
        assert ps[|pb| + 1 + (k - |pb| - 1)] == Shifted(pl[k - |pb| - 1]);
        ShiftedInjective(pl[j - |pb| - 1], pl[k - |pb| - 1]);
      }
    }
  }

  lemma SameHead(x: seq<nat>, y: seq<nat>)
    ensures [0] + x == [0] + y ==> x == y
  {
    if [0] + x == [0] + y {
      assert ([0] + x)[1..] == x && ([0] + y)[1..] == y;
    }
  }

  lemma ShiftedInjective(x: seq<nat>, y: seq<nat>)
    requires x != [] && y != []
    ensures Shifted(x) == Shifted(y) ==> x == y
  {
    if Shifted(x) == Shifted(y) {
      assert Shifted(x)[0] == x[0] + 1 && Shifted(y)[0] == y[0] + 1;
      assert Shifted(x)[1..] == x[1..] && Shifted(y)[1..] == y[1..];
      assert x == [x[0]] + x[1..] && y == [y[0]] + y[1..];
    }
  }

  /** Every node of the forest ends some chain. */
  lemma {:induction false} PositionsComplete(src: seq<Resource>, p: seq<nat>)
    requires p != [] && Along(src, p).Some?
    ensures p in Positions(src)
    decreases SizeAll(src)
  {
    ChildrenAreSmaller(src[0]);
    var pb := Positions(Kids(src[0]));
    var pl := Positions(src[1..]);
    assert Positions(src) == Assemble(pb, pl);
    if p[0] == 0 {
      if |p| > 1 {
        assert p == [0] + p[1..];
        AlongFirst(src, p[1..]);
        PositionsComplete(Kids(src[0]), p[1..]);
      }
    } else {
      var q := [p[0] - 1] + p[1..];
      assert Shifted(q) == p;
      AlongShifted(src, q);
      PositionsComplete(src[1..], q);
    }
    AssembleContains(pb, pl, p);
  }

  lemma AssembleContains(pb: seq<seq<nat>>, pl: seq<seq<nat>>, p: seq<nat>)
    requires forall k :: 0 <= k < |pl| ==> pl[k] != []
    requires p != []
    requires p[0] == 0 && |p| > 1 ==> p[1..] in pb
    requires p[0] > 0 ==> [p[0] - 1] + p[1..] in pl
    ensures p in Assemble(pb, pl)
  {
    var ps := Assemble(pb, pl);
    AssembleShape(pb, pl);
    if p[0] == 0 {
      if |p| == 1 {
        assert p == [0] && ps[|pb|] == p;
      } else {
        var j :| 0 <= j < |pb| && pb[j] == p[1..];
        assert ps[j] == [0] + p[1..] == p;
      }
    } else {
      var q := [p[0] - 1] + p[1..];
      var k :| 0 <= k < |pl| && pl[k] == q;
      assert ps[|pb| + 1 + k] == Shifted(q) == p;
    }
  }

  /** Each node of the forest ends exactly one chain: the chains and the index paths of the
      nodes correspond one to one, there are as many as there are nodes, and the j-th chain is
      the list of resources from the root down to the j-th node. */
  lemma ChainPerNode(src: seq<Resource>)
    ensures |Positions(src)| == |Chains(src)| == SizeAll(src)
    ensures forall j :: 0 <= j < |Chains(src)| ==> Along(src, Positions(src)[j]) == Some(Chains(src)[j])
    ensures forall j, k :: 0 <= j < k < |Positions(src)| ==> Positions(src)[j] != Positions(src)[k]
    ensures forall p :: p != [] && Along(src, p).Some? ==> p in Positions(src)
  {
    ChainsCount(src);
    PositionsFollowChains(src);
    PositionsDistinct(src);
    forall p | p != [] && Along(src, p).Some?
      ensures p in Positions(src)
    {
      PositionsComplete(src, p);
    }
  }

  /** A chain starts at a resource of the forest and goes down through `resources`. */
  predicate IsPath(src: seq<Resource>, chain: seq<Resource>) {
    chain != [] && chain[0] in src &&
    forall k :: 0 <= k < |chain| - 1 ==> chain[k + 1] in Kids(chain[k])
  }

  lemma {:induction false} ChainsArePaths(src: seq<Resource>)
    ensures forall j :: 0 <= j < |Chains(src)| ==> IsPath(src, Chains(src)[j])
    decreases SizeAll(src)
  {
    if src != [] {
      var r := src[0];
      ChildrenAreSmaller(r);
      ChainsArePaths(Kids(r));
      ChainsArePaths(src[1..]);
      var below := Chains(Kids(r));
      var prefixed := seq(|below|, j requires 0 <= j < |below| => [r] + below[j]);
      assert Chains(src) == prefixed + [[r]] + Chains(src[1..]);
      forall j | 0 <= j < |below| ensures IsPath(src, prefixed[j]) {
        var c := below[j];
        assert IsPath(Kids(r), c);
        assert forall k :: 0 < k < |[r] + c| ==> ([r] + c)[k] == c[k - 1];
      }
      forall j | 0 <= j < |Chains(src[1..])| ensures IsPath(src, Chains(src[1..])[j]) {
        assert IsPath(src[1..], Chains(src[1..])[j]);
      }
    }
  }

  /** The top-level call `unnest(data.resources, [], '')` yields one resource per resource of
      the tree, the reverse of the post-order, each the last of its chain of ancestors as
      `FromChain` describes it, with `resources` and `relativeUriPathSegments` gone. */
  lemma FlattenedResources(src: seq<Resource>)
    ensures var out := Reverse(PostOrder(src, "", None, None));
            var chains := Reverse(Chains(src));
            |out| == SizeAll(src) && |chains| == |out| &&
            forall i :: 0 <= i < |out| ==>
              IsPath(src, chains[i]) && out[i] == FromChain("", None, None, chains[i]) &&
              out[i].resources == NoChildren && out[i].pathSegments == None &&
              out[i].relativeUri == ConcatUris(chains[i])
  {
    var post := PostOrder(src, "", None, None);
    var cs := Chains(src);
    PostOrderFromChains(src, "", None, None);
    ChainsCount(src);
    ChainsArePaths(src);
    forall i | 0 <= i < |post|
      ensures Reverse(post)[i] == post[|post| - 1 - i] && Reverse(cs)[i] == cs[|cs| - 1 - i]
    {
      ReverseIndex(post, i);
      ReverseIndex(cs, i);
    }
  }

  // ---- descriptions

  /** The non-empty own descriptions of a list of resources, in order. */
  function Texts(rs: seq<Resource>): (ts: seq<string>)
    ensures |ts| <= |rs|
  {
    if rs == [] then []
    else (if HasText(rs[0].description) then [rs[0].description.value] else []) + Texts(rs[1..])
  }

  /** What is inherited from above a resource: its ancestors' descriptions, nearest first, then
      the description passed to the top-level call. */
  function Above(desc: Option<string>, ancestors: seq<Resource>): seq<string> {
    Reverse(Texts(ancestors)) + (if HasText(desc) then [desc.value] else [])
  }

  function OwnText(r: Resource): seq<string> {
    if HasText(r.description) then [r.description.value] else []
  }

  function PassedText(desc: Option<string>): seq<string> {
    if HasText(desc) then [desc.value] else []
  }

  /** One level of pushing down: the merged description is the join of the resource's own
      text and the inherited one, and is empty exactly when both are. */
  lemma MergeDescriptionText(r: Resource, desc: Option<string>)
    ensures var d1 := MergeDescription(r.description, desc);
            (HasText(d1) <==> OwnText(r) + PassedText(desc) != []) &&
            (HasText(d1) ==> d1.value == Join(OwnText(r) + PassedText(desc), "<hr>")) &&
            (!HasText(d1) && HasText(desc) ==> false) &&
            (!HasText(desc) ==> d1 == r.description)
  {
    if HasText(desc) && HasText(r.description) {
      assert OwnText(r) + PassedText(desc) == [r.description.value, desc.value];
      assert [r.description.value, desc.value][1..] == [desc.value];
    }
  }

  lemma AboveSplit(desc: Option<string>, c0: Resource, a1: seq<Resource>)
    ensures Above(desc, [c0] + a1) == Reverse(Texts(a1)) + (OwnText(c0) + PassedText(desc))
  {
    assert ([c0] + a1)[0] == c0;
    assert ([c0] + a1)[1..] == a1;
    assert Texts([c0] + a1) == OwnText(c0) + Texts(a1);
    ReverseAppend(OwnText(c0), Texts(a1));
    assert Reverse(OwnText(c0)) == OwnText(c0);
  }

  /** A flattened resource's description is its own and every non-empty description above
      it, nearest first, joined by `<hr>`; with nothing above it, its own is kept as it was. */
  lemma {:induction false} DescriptionClosedForm(desc: Option<string>, chain: seq<Resource>)
    requires chain != []
    ensures var node := chain[|chain| - 1];
            var above := Above(desc, chain[..|chain| - 1]);
            ChainDescription(desc, chain) ==
              if above == [] then node.description else Some(Join(OwnText(node) + above, "<hr>"))
    decreases |chain|
  {
    if |chain| == 1 {
      DescriptionSingle(desc, chain);
    } else {
      DescriptionClosedForm(MergeDescription(chain[0].description, desc), chain[1..]);
      DescriptionCons(desc, chain);
    }
  }

  predicate ClosedDescription(desc: Option<string>, chain: seq<Resource>)
    requires chain != []
  {
    var node := chain[|chain| - 1];
    var above := Above(desc, chain[..|chain| - 1]);
    ChainDescription(desc, chain) == if above == [] then node.description else Some(Join(OwnText(node) + above, "<hr>"))
  }

  lemma DescriptionSingle(desc: Option<string>, chain: seq<Resource>)
    requires |chain| == 1
    ensures ClosedDescription(desc, chain)
  {
    var c0 := chain[0];
    MergeDescriptionText(c0, desc);
    assert chain[1..] == [];
    assert chain[..0] == [];
    assert Above(desc, []) == PassedText(desc);
  }

  lemma DescriptionCons(desc: Option<string>, chain: seq<Resource>)
    requires |chain| >= 2
    requires ClosedDescription(MergeDescription(chain[0].description, desc), chain[1..])
    ensures ClosedDescription(desc, chain)
  {
    var d1 := MergeDescription(chain[0].description, desc);
    var rest := chain[1..];
    var node := chain[|chain| - 1];
    assert rest[|rest| - 1] == node;
    var inherited := Above(d1, rest[..|rest| - 1]);
    var above := Above(desc, chain[..|chain| - 1]);
    assert ChainDescription(desc, chain) == ChainDescription(d1, rest);
    AboveRelation(desc, chain);
    PickDescription(ChainDescription(desc, chain), node.description, OwnText(node), inherited, above);
  }

  lemma PickDescription(d: Option<string>, own: Option<string>, ownText: seq<string>, inherited: seq<string>, above: seq<string>)
    requires d == if inherited == [] then own else Some(Join(ownText + inherited, "<hr>"))
    requires inherited == [] <==> above == []
    requires inherited != [] ==> Join(ownText + inherited, "<hr>") == Join(ownText + above, "<hr>")
    ensures d == if above == [] then own else Some(Join(ownText + above, "<hr>"))
  {
  }

  /** What the second resource of a chain inherits, and what the last one has above it, are
      empty together and give the same joined description. */
  lemma AboveRelation(desc: Option<string>, chain: seq<Resource>)
    requires |chain| >= 2
    ensures var d1 := MergeDescription(chain[0].description, desc);
            var rest := chain[1..];
            var node := chain[|chain| - 1];
            var inherited := Above(d1, rest[..|rest| - 1]);
            var above := Above(desc, chain[..|chain| - 1]);
            (inherited == [] <==> above == []) &&
            (inherited != [] ==> Join(OwnText(node) + inherited, "<hr>") == Join(OwnText(node) + above, "<hr>"))
  {
    var c0 := chain[0];
    var d1 := MergeDescription(c0.description, desc);
    var a1 := chain[1..][..|chain| - 2];
    InitSplit(chain);
    AboveSplit(desc, c0, a1);
    MergeDescriptionText(c0, desc);
    DescriptionStep(chain[|chain| - 1], Reverse(Texts(a1)), OwnText(c0) + PassedText(desc), d1);
  }

  lemma InitSplit(chain: seq<Resource>)
    requires |chain| >= 2
    ensures chain[..|chain| - 1] == [chain[0]] + chain[1..][..|chain| - 2]
  {
  }

  lemma DescriptionStep(node: Resource, r: seq<string>, xs: seq<string>, d1: Option<string>)
    requires HasText(d1) <==> xs != []
    requires HasText(d1) ==> d1.value == Join(xs, "<hr>")
    ensures var d1p := PassedText(d1);
            (r + d1p == [] <==> r + xs == []) &&
            (r + d1p != [] ==> Join(OwnText(node) + (r + d1p), "<hr>") == Join(OwnText(node) + (r + xs), "<hr>"))
  {
    if HasText(d1) {
      JoinFlatten(OwnText(node) + r, xs, "<hr>");
      assert OwnText(node) + (r + [d1.value]) == (OwnText(node) + r) + [d1.value];
      assert OwnText(node) + (r + xs) == (OwnText(node) + r) + xs;
    } else {
      assert xs == [];
      assert r + xs == r;
    }
  }

  // ---- URI parameters

  predicate DistinctKeys(p: Option<Members<TypeDef>>) {
    p.Some? ==> Distinct(p.value)
  }

  /** The entry for `k` in the topmost parameter object along a chain that has one. */
  function TopmostValue(p: Option<Members<TypeDef>>, chain: seq<Resource>, k: string): Option<TypeDef>
    decreases |chain|
  {
    if p.Some? && Lookup(p.value, k).Some? then Lookup(p.value, k)
    else if chain == [] then None
    else TopmostValue(chain[0].uriParameters, chain[1..], k)
  }

  /** On a name conflict the inherited URI parameter wins, so a flattened resource sees, for each
      name, the entry of its topmost ancestor declaring it; it has no parameter object exactly
      when neither it nor any ancestor had one. */
  lemma {:induction false} InheritedParameterWins(params: Option<Members<TypeDef>>, chain: seq<Resource>, k: string)
    requires DistinctKeys(params)
    requires forall i :: 0 <= i < |chain| ==> DistinctKeys(chain[i].uriParameters)
    ensures ChainParams(params, chain).Some? ==>
              Lookup(ChainParams(params, chain).value, k) == TopmostValue(params, chain, k)
    ensures ChainParams(params, chain).None? <==>
              params.None? && forall i :: 0 <= i < |chain| ==> chain[i].uriParameters.None?
    decreases |chain|
  {
    if chain != [] {
      var c0 := chain[0];
      var m := MergeParams(c0.uriParameters, params);
      if params.Some? {
        ExtendLookup(c0.uriParameters.GetOr([]), params.value);
        ExtendDistinct(c0.uriParameters.GetOr([]), params.value);
      }
      assert forall i :: 0 <= i < |chain[1..]| ==> chain[1..][i] == chain[i + 1];
      InheritedParameterWins(m, chain[1..], k);
      if params.None? && c0.uriParameters.None? {
        assert (forall i :: 0 <= i < |chain[1..]| ==> chain[1..][i].uriParameters.None?) <==>
               (forall i :: 0 <= i < |chain| ==> chain[i].uriParameters.None?);
      }
    }
  }

  // ---- an example

  function Node(uri: string, kids: seq<Resource>): Resource {
    Resource(uri, None, None, None, if kids == [] then NoChildren else Children(kids), None, [])
  }

  function Uris(rs: seq<Resource>): seq<string> {
    seq(|rs|, i requires 0 <= i < |rs| => rs[i].relativeUri)
  }

  /** `[A{resources: [A1]}, B]` flattens to `[B, A, A1]`, with `A1` rooted under `A`. */
  lemma FlattenExample()
    ensures Uris(Reverse(PostOrder([Node("/a", [Node("/1", [])]), Node("/b", [])], "", None, None))) ==
            ["/b", "/a", "/a/1"]
  {
    var a1 := Node("/1", []);
    var a := Node("/a", [a1]);
    var b := Node("/b", []);
    assert Kids(a) == [a1];
    assert Kids(a1) == [] && Kids(b) == [];
    var ma := Merged(a, "", None, None);
    assert Kids(ma) == [a1];
    assert ma.relativeUri == "/a" && ma.uriParameters == None && ma.description == None;
    var ma1 := Merged(a1, "/a", None, None);
    assert ma1.relativeUri == "/a/1";
    assert PostOrder([a1], "/a", None, None) == [ma1.(resources := NoChildren)];
    assert PostOrder([b], "", None, None) == [Merged(b, "", None, None).(resources := NoChildren)];
    assert [a, b][1..] == [b];
    var post := [ma1.(resources := NoChildren), ma.(resources := NoChildren), Merged(b, "", None, None).(resources := NoChildren)];
    assert PostOrder([a, b], "", None, None) == post;
    ReverseIndex(post, 0);
    ReverseIndex(post, 1);
    ReverseIndex(post, 2);
    assert Reverse(post) == [post[2], post[1], post[0]];
    assert post[0].relativeUri == "/a/1" && post[1].relativeUri == "/a" && post[2].relativeUri == "/b";
  }
}
