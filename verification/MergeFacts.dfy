/**
  Laws of the merge: it has a closed form on arrays of named objects, applying the same patch
  twice changes nothing more, what the patch sets reads back, and what it does not touch stays.
 */
module MergeFacts {
  import opened JsonTree
  import opened Merge

  // ---------- well-formed patches ----------

  predicate IdFieldsScalar(m: map<string, Json>) {
    forall i :: 0 <= i < |IDENTITY_KEYS| && IDENTITY_KEYS[i] in m ==> IsScalar(m[IDENTITY_KEYS[i]])
  }

  predicate DistinctIds(xs: seq<Json>)
    requires forall i :: 0 <= i < |xs| ==> xs[i].Obj?
  {
    && (forall i :: 0 <= i < |xs| ==> IdOf(xs[i].fields) != "" && IdFieldsScalar(xs[i].fields))
    && (forall i, j :: 0 <= i < j < |xs| ==> IdOf(xs[i].fields) != IdOf(xs[j].fields))
  }

  predicate ScalarItems(xs: seq<Json>) {
    forall i :: 0 <= i < |xs| ==> !xs[i].Obj?
  }

  predicate ObjectItems(xs: seq<Json>) {
    forall i :: 0 <= i < |xs| ==> xs[i].Obj?
  }

  /** Every array is one of plain values, or of objects with distinct identities. */
  predicate Named(j: Json)
    decreases j
  {
    match j
    case Obj(m) => forall k :: k in m ==> Named(m[k])
    case Arr(xs) =>
      || ScalarItems(xs)
      || (ObjectItems(xs) && DistinctIds(xs) && forall i :: 0 <= i < |xs| ==> Named(xs[i]))
    case _ => true
  }

  // ---------- identities survive a merge ----------

  /** Merging an element into the one it was matched with keeps the identity. */
  lemma {:induction false} IdentityKept(d: map<string, Json>, p: map<string, Json>, i: nat)
    requires i <= |IDENTITY_KEYS| && IdFieldsScalar(p)
    requires IdFrom(d, i) == IdFrom(p, i) != ""
    ensures IdFrom(MergeMaps(d, p), i) == IdFrom(p, i)
    decreases |IDENTITY_KEYS| - i
  {
    var k := IDENTITY_KEYS[i];
    var m := MergeMaps(d, p);
    if k in p {
      assert k in d ==> MergeValues(d[k], p[k]) == p[k];
      assert m[k] == p[k];
    } else if k in d && IsScalar(d[k]) {
      assert m[k] == d[k];
    } else {
      assert k in m ==> m[k] == d[k];
      IdentityKept(d, p, i + 1);
    }
  }

  lemma {:induction false} MergedId(d: map<string, Json>, p: map<string, Json>)
    requires IdFieldsScalar(p) && IdOf(d) == IdOf(p) != ""
    ensures IdOf(MergeMaps(d, p)) == IdOf(p)
  {
    IdentityKept(d, p, 0);
  }

  // ---------- the closed form on arrays of objects ----------

  /** The position of the patch element for this identity. */
  function Patch(p: seq<Json>, id: string): (j: nat)
    ensures j <= |p|
  {
    FindId(p, id)
  }

  /** What becomes of element `i` of the old array: only the first with its identity is merged. */
  function Kept(d: seq<Json>, p: seq<Json>, i: nat): Json
    requires i < |d|
  {
    if d[i].Obj? && IdOf(d[i].fields) != "" && FindId(d, IdOf(d[i].fields)) == i && Patch(p, IdOf(d[i].fields)) < |p| then
      Obj(MergeMaps(d[i].fields, p[Patch(p, IdOf(d[i].fields))].fields))
    else d[i]
  }

  function KeptAll(d: seq<Json>, p: seq<Json>): (r: seq<Json>)
    ensures |r| == |d|
  {
    seq(|d|, i requires 0 <= i < |d| => Kept(d, p, i))
  }

  /** The patch elements without a counterpart, in patch order. */
  function Fresh(d: seq<Json>, p: seq<Json>): seq<Json>
    requires ObjectItems(p)
  {
    if p == [] then []
    else Fresh(d, p[..|p| - 1]) + (if FindId(d, IdOf(p[|p| - 1].fields)) == |d| then [p[|p| - 1]] else [])
  }

  lemma {:induction false} FindIdIs(xs: seq<Json>, id: string, i: nat)
    requires i <= |xs| && (i < |xs| ==> HasId(xs[i], id)) && forall j :: 0 <= j < i ==> !HasId(xs[j], id)
    ensures FindId(xs, id) == i
  {
  }

  lemma {:induction false} FindInPrefix(p: seq<Json>, pe: Json, id: string)
    ensures FindId(p + [pe], id) == if FindId(p, id) < |p| then FindId(p, id) else if HasId(pe, id) then |p| else |p| + 1
  {
    var f := FindId(p, id);
    var q := p + [pe];
    if f < |p| {
      assert forall j :: 0 <= j < f ==> !HasId(q[j], id);
      FindIdIs(q, id, f);
    } else {
      assert forall j :: 0 <= j < |p| ==> !HasId(q[j], id);
      FindIdIs(q, id, if HasId(pe, id) then |p| else |p| + 1);
    }
  }

  lemma {:induction false} FindInConcat(xs: seq<Json>, ys: seq<Json>, id: string)
    ensures FindId(xs + ys, id) == if FindId(xs, id) < |xs| then FindId(xs, id) else |xs| + FindId(ys, id)
  {
    if xs == [] {
      assert xs + ys == ys;
    } else {
      assert (xs + ys)[0] == xs[0] && (xs + ys)[1..] == xs[1..] + ys;
      FindInConcat(xs[1..], ys, id);
    }
  }

  lemma {:induction false} FreshMisses(d: seq<Json>, p: seq<Json>, id: string)
    requires ObjectItems(p) && FindId(p, id) == |p|
    ensures FindId(Fresh(d, p), id) == |Fresh(d, p)|
  {
    hide HasId, IdOf;
    if p != [] {
      var init, last := p[..|p| - 1], p[|p| - 1];
      assert p == init + [last];
      FindInPrefix(init, last, id);
      FreshMisses(d, init, id);
      FindInPrefix(Fresh(d, init), last, id);
    }
  }

  /** A patch element without a counterpart is found among the new elements. */
  lemma {:induction false} FreshFinds(d: seq<Json>, p: seq<Json>, j: nat)
    requires ObjectItems(p) && DistinctIds(p) && j < |p| && FindId(d, IdOf(p[j].fields)) == |d|
    ensures var i := FindId(Fresh(d, p), IdOf(p[j].fields)); i < |Fresh(d, p)| && Fresh(d, p)[i] == p[j]
    decreases p
  {
    var init, last, id := p[..|p| - 1], p[|p| - 1], IdOf(p[j].fields);
    PrefixNamed(p, |p| - 1);
    DifferentIds(p, j);
    var before := Fresh(d, init);
    assert Fresh(d, p) == before + [last] || (j < |p| - 1 && Fresh(d, p) == before);
    hide *;
    FindInPrefix(before, last, id);
    if j == |p| - 1 {
      FreshMisses(d, init, id);
    } else {
      assert init[j] == p[j];
      FreshFinds(d, init, j);
    }
  }

  lemma DifferentIds(p: seq<Json>, j: nat)
    requires ObjectItems(p) && DistinctIds(p) && j < |p|
    ensures HasId(p[|p| - 1], IdOf(p[j].fields)) <==> j == |p| - 1
  {
  }

  lemma PrefixNamed(p: seq<Json>, n: nat)
    requires ObjectItems(p) && DistinctIds(p) && n < |p|
    ensures ObjectItems(p[..n]) && DistinctIds(p[..n])
    ensures FindId(p[..n], IdOf(p[n].fields)) == n
    ensures forall x :: x in p[..n] ==> x.Obj? && IdOf(x.fields) != IdOf(p[n].fields)
  {
    assert forall i :: 0 <= i < n ==> p[..n][i] == p[i];
    FindIdIs(p[..n], IdOf(p[n].fields), n);
  }

  lemma {:induction false} KeptIds(d: seq<Json>, p: seq<Json>, id: string)
    requires ObjectItems(p) && DistinctIds(p)
    ensures FindId(KeptAll(d, p), id) == FindId(d, id)
    ensures forall i :: 0 <= i < |d| ==> (HasId(KeptAll(d, p)[i], id) <==> HasId(d[i], id))
  {
    forall i | 0 <= i < |d| ensures HasId(KeptAll(d, p)[i], id) <==> HasId(d[i], id) {
      if KeptAll(d, p)[i] != d[i] {
        MergedId(d[i].fields, p[Patch(p, IdOf(d[i].fields))].fields);
      }
    }
    FindIdIs(KeptAll(d, p), id, FindId(d, id));
  }

  /** Where the merged array so far holds the identity of the next patch element. */
  lemma {:induction false} OutIndex(d: seq<Json>, p: seq<Json>, n: nat)
    requires ObjectItems(p) && DistinctIds(p) && n < |p| && ObjectItems(p[..n])
    ensures FindId(KeptAll(d, p[..n]) + Fresh(d, p[..n]), IdOf(p[n].fields)) ==
      if FindId(d, IdOf(p[n].fields)) < |d| then FindId(d, IdOf(p[n].fields)) else |d| + |Fresh(d, p[..n])|
  {
    var id := IdOf(p[n].fields);
    PrefixNamed(p, n);
    KeptIds(d, p[..n], id);
    FreshMisses(d, p[..n], id);
    FindInConcat(KeptAll(d, p[..n]), Fresh(d, p[..n]), id);
  }

  lemma {:induction false} KeptAt(d: seq<Json>, init: seq<Json>, pe: Json, id: string, i: nat)
    requires pe.Obj? && IdOf(pe.fields) == id != "" && FindId(init, id) == |init| && i < |d|
    ensures i == FindId(d, id) ==>
      d[i].Obj? && Kept(d, init + [pe], i) == Obj(MergeMaps(d[i].fields, pe.fields)) && Kept(d, init, i) == d[i]
    ensures i != FindId(d, id) ==> Kept(d, init + [pe], i) == Kept(d, init, i)
  {
    hide MergeMaps, IdOf, FindId;
    if d[i].Obj? {
      FindInPrefix(init, pe, IdOf(d[i].fields));
    }
  }

  lemma {:induction false} KeptStep(d: seq<Json>, init: seq<Json>, pe: Json, id: string)
    requires pe.Obj? && IdOf(pe.fields) == id != "" && FindId(init, id) == |init|
    ensures var at := FindId(d, id);
      && (at < |d| ==> d[at].Obj? && KeptAll(d, init)[at] == d[at] &&
                       KeptAll(d, init + [pe]) == KeptAll(d, init)[at := Obj(MergeMaps(d[at].fields, pe.fields))])
      && (at == |d| ==> KeptAll(d, init + [pe]) == KeptAll(d, init))
  {
    hide MergeMaps, IdOf, FindId, Kept;
    var at := FindId(d, id);
    forall i | 0 <= i < |d|
      ensures i == at ==> d[i].Obj? && Kept(d, init + [pe], i) == Obj(MergeMaps(d[i].fields, pe.fields)) && Kept(d, init, i) == d[i]
      ensures i != at ==> Kept(d, init + [pe], i) == Kept(d, init, i)
    {
      KeptAt(d, init, pe, id, i);
    }
  }

  /** Old elements keep their place and identity, new ones follow in patch order. */
  lemma {:induction false} ArraysFormUpTo(d: seq<Json>, p: seq<Json>, n: nat)
    requires ObjectItems(p) && DistinctIds(p) && n <= |p|
    ensures ObjectItems(p[..n]) && MergeItems(d, p[..n]) == KeptAll(d, p[..n]) + Fresh(d, p[..n])
  {
    if n == 0 {
      assert KeptAll(d, []) == d;
    } else {
      ArraysFormUpTo(d, p, n - 1);
      ArraysFormStep(d, p, n - 1);
    }
  }

  lemma {:induction false} ArraysFormStep(d: seq<Json>, p: seq<Json>, n: nat)
    requires ObjectItems(p) && DistinctIds(p) && n < |p|
    requires ObjectItems(p[..n]) && MergeItems(d, p[..n]) == KeptAll(d, p[..n]) + Fresh(d, p[..n])
    ensures ObjectItems(p[..n + 1]) && MergeItems(d, p[..n + 1]) == KeptAll(d, p[..n + 1]) + Fresh(d, p[..n + 1])
  {
    hide KeptAll, Kept, IdOf, FindId, DistinctIds, MergeMaps;
    assert p[..n + 1][..n] == p[..n] && p[..n + 1][n] == p[n];
    OutIndex(d, p, n);
    PrefixNamed(p, n);
    NamedIds(p, n);
    KeptStep(d, p[..n], p[n], IdOf(p[n].fields));
    assert p[..n + 1] == p[..n] + [p[n]];
    var kept, added := KeptAll(d, p[..n]), Fresh(d, p[..n]);
    var at := FindId(d, IdOf(p[n].fields));
    if at < |d| {
      assert (kept + added)[at] == kept[at];
    }
  }

  lemma NamedIds(p: seq<Json>, i: nat)
    requires ObjectItems(p) && DistinctIds(p) && i < |p|
    ensures IdOf(p[i].fields) != "" && IdFieldsScalar(p[i].fields)
  {
  }

  lemma {:induction false} ArraysForm(d: seq<Json>, p: seq<Json>)
    requires ObjectItems(p) && DistinctIds(p)
    ensures MergeItems(d, p) == KeptAll(d, p) + Fresh(d, p)
  {
    ArraysFormUpTo(d, p, |p|);
    assert p[..|p|] == p;
  }

  // ---------- finding elements in a merged array ----------

  /** The identity of a patch element leads to the merged element, or to the patch element itself. */
  lemma {:induction false} MergedElement(d: seq<Json>, p: seq<Json>, j: nat)
    requires ObjectItems(p) && DistinctIds(p) && j < |p|
    ensures var out, id := MergeItems(d, p), IdOf(p[j].fields); var i := FindId(out, id);
      && i < |out|
      && (if FindId(d, id) < |d| then i == FindId(d, id) && out[i] == Obj(MergeMaps(d[i].fields, p[j].fields))
          else i >= |d| && out[i] == p[j])
  {
    var id := IdOf(p[j].fields);
    NamedIds(p, j);
    FirstOfId(p, j);
    if FindId(d, id) < |d| {
      KeptMerged(d, p, j, FindId(d, id));
    }
    ArraysForm(d, p);
    KeptIds(d, p, id);
    hide *;
    var kept, added := KeptAll(d, p), Fresh(d, p);
    FindInConcat(kept, added, id);
    if FindId(d, id) == |d| {
      FreshFinds(d, p, j);
      assert (kept + added)[|kept| + FindId(added, id)] == added[FindId(added, id)];
    } else {
      assert (kept + added)[FindId(d, id)] == kept[FindId(d, id)];
    }
  }

  lemma {:induction false} KeptMerged(d: seq<Json>, p: seq<Json>, j: nat, i: nat)
    requires j < |p| && p[j].Obj? && IdOf(p[j].fields) != "" && FindId(p, IdOf(p[j].fields)) == j
    requires i < |d| && FindId(d, IdOf(p[j].fields)) == i
    ensures d[i].Obj? && KeptAll(d, p)[i] == Obj(MergeMaps(d[i].fields, p[j].fields))
  {
    hide MergeMaps, IdOf, FindId;
  }

  lemma {:induction false} FirstOfId(p: seq<Json>, j: nat)
    requires ObjectItems(p) && DistinctIds(p) && j < |p|
    ensures FindId(p, IdOf(p[j].fields)) == j
  {
    FindIdIs(p, IdOf(p[j].fields), j);
  }

  /** An identity the patch does not mention leads where it led before. */
  lemma {:induction false} OtherElement(d: seq<Json>, p: seq<Json>, id: string)
    requires ObjectItems(p) && DistinctIds(p) && FindId(p, id) == |p|
    ensures |d| <= |MergeItems(d, p)|
    ensures var out := MergeItems(d, p);
      if FindId(d, id) < |d| then FindId(out, id) == FindId(d, id) && out[FindId(d, id)] == d[FindId(d, id)]
      else FindId(out, id) == |out|
  {
    ArraysForm(d, p);
    KeptIds(d, p, id);
    FreshMisses(d, p, id);
    FindInConcat(KeptAll(d, p), Fresh(d, p), id);
  }

  // ---------- idempotence ----------

  /** An empty array in the patch leaves the list alone, whatever it holds. */
  lemma EmptyPatch(d: seq<Json>)
    ensures MergeValues(Arr(d), Arr([])) == Arr(d)
  {
    assert MergeItems(d, []) == d;
    var none: seq<Json> := [];
    assert MergeArrays(d, none) == MergeItems(d, none);
  }

  lemma {:induction false} SelfMerge(p: Json)
    requires Named(p)
    ensures MergeValues(p, p) == p
    decreases p
  {
    match p
    case Obj(m) =>
      forall k | k in m ensures MergeMaps(m, m)[k] == m[k] {
        SelfMerge(m[k]);
      }
      assert MergeMaps(m, m) == m;
    case Arr(xs) =>
      if ObjectItems(xs) && xs != [] {
        forall j | 0 <= j < |xs| ensures Obj(MergeMaps(xs[j].fields, xs[j].fields)) == xs[j] {
          SelfMerge(xs[j]);
        }
        SelfMergeItems(xs);
        assert MergeArrays(xs, xs) == MergeItems(xs, xs);
      } else if xs != [] {
        assert !xs[0].Obj?;
      } else {
        EmptyPatch(xs);
      }
    case _ =>
  }

  lemma {:induction false} SelfMergeItems(xs: seq<Json>)
    requires ObjectItems(xs) && DistinctIds(xs)
    requires forall j :: 0 <= j < |xs| ==> Obj(MergeMaps(xs[j].fields, xs[j].fields)) == xs[j]
    ensures MergeItems(xs, xs) == xs
  {
    forall j | 0 <= j < |xs| ensures FindId(xs, IdOf(xs[j].fields)) == j {
      FirstOfId(xs, j);
    }
    hide MergeMaps, MergeItems, DistinctIds, FindId, IdOf;
    Absorbed(xs, xs);
  }

  lemma {:induction false} NothingFresh(d: seq<Json>, p: seq<Json>, n: nat)
    requires ObjectItems(p) && n <= |p| && forall j :: 0 <= j < |p| ==> FindId(d, IdOf(p[j].fields)) < |d|
    ensures ObjectItems(p[..n]) && Fresh(d, p[..n]) == []
  {
    if n > 0 {
      assert p[..n][..n - 1] == p[..n - 1] && p[..n][n - 1] == p[n - 1];
      NothingFresh(d, p, n - 1);
    }
  }

  /** Applying a patch to a tree it was already applied to changes nothing. */
  lemma {:induction false} MergeTwice(d: Json, p: Json)
    requires Named(p)
    ensures MergeValues(MergeValues(d, p), p) == MergeValues(d, p)
    decreases p
  {
    if d.Obj? && p.Obj? {
      var once := MergeMaps(d.fields, p.fields);
      forall k | k in once ensures MergeMaps(once, p.fields)[k] == once[k] {
        if k in p.fields {
          assert p.fields[k] < p;
          if k in d.fields {
            MergeTwice(d.fields[k], p.fields[k]);
          } else {
            SelfMerge(p.fields[k]);
          }
        }
      }
      assert MergeMaps(once, p.fields) == once;
    } else if d.Arr? && p.Arr? {
      if ObjectItems(p.items) && p.items != [] {
        var out := MergeItems(d.items, p.items);
        forall j | 0 <= j < |p.items|
          ensures var i := FindId(out, IdOf(p.items[j].fields));
            i < |out| && Obj(MergeMaps(out[i].fields, p.items[j].fields)) == out[i]
        {
          MergedElement(d.items, p.items, j);
          var i := FindId(out, IdOf(p.items[j].fields));
          if i < |d.items| {
            MergeTwice(d.items[i], p.items[j]);
          } else {
            SelfMerge(p.items[j]);
          }
        }
        Absorbed(out, p.items);
        assert MergeArrays(d.items, p.items) == out && MergeArrays(out, p.items) == out;
      } else if p.items != [] {
        assert !p.items[0].Obj?;
      } else {
        EmptyPatch(d.items);
      }
    } else {
      SelfMerge(p);
    }
  }

  /** An array in which every patch element is already merged is left as it is. */
  lemma {:induction false} Absorbed(out: seq<Json>, p: seq<Json>)
    requires ObjectItems(p) && DistinctIds(p)
    requires forall j :: 0 <= j < |p| ==> var i := FindId(out, IdOf(p[j].fields));
      i < |out| && Obj(MergeMaps(out[i].fields, p[j].fields)) == out[i]
    ensures MergeItems(out, p) == out
  {
    ArraysForm(out, p);
    forall i | 0 <= i < |out| ensures Kept(out, p, i) == out[i] {
      if out[i].Obj? && IdOf(out[i].fields) != "" && FindId(out, IdOf(out[i].fields)) == i {
        var j := FindId(p, IdOf(out[i].fields));
        if j < |p| {
          assert IdOf(p[j].fields) == IdOf(out[i].fields);
        }
      }
    }
    NothingFresh(out, p, |p|);
    assert p[..|p|] == p;
    assert KeptAll(out, p) == out;
  }
}
