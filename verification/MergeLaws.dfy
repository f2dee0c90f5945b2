/**
  What a user may rely on after merging a patch (internal/model/merge.go): the patch reads back,
  everything else reads as before, elements keep their order, and a second merge does nothing.
 */
module MergeLaws {
  import opened Common
  import opened JsonTree
  import opened Merge
  import opened MergeFacts

  // ---------- reading at identity paths ----------

  datatype Step = Key(k: string) | Elem(id: string)

  function Read(j: Json, path: seq<Step>): Option<Json>
    decreases |path|
  {
    if path == [] then Some(j)
    else
      match path[0]
      case Key(k) => if j.Obj? && k in j.fields then Read(j.fields[k], path[1..]) else None
      case Elem(id) =>
        if j.Arr? && FindId(j.items, id) < |j.items| then Read(j.items[FindId(j.items, id)], path[1..]) else None
  }

  /** A scalar or a list of plain values: what a merge replaces as a whole. */
  predicate IsLeaf(j: Json) {
    IsScalar(j) || (j.Arr? && j.items != [] && ScalarItems(j.items))
  }

  /** Whether the patch sets or replaces something at, above or below this path. */
  predicate Touched(p: Json, path: seq<Step>)
    decreases |path|
  {
    path == [] ||
    match path[0]
    case Key(k) => p.Obj? ==> k in p.fields && Touched(p.fields[k], path[1..])
    case Elem(id) =>
      p.Arr? ==>
        && p.items != []
        && (ObjectItems(p.items) ==> FindId(p.items, id) < |p.items| && Touched(p.items[FindId(p.items, id)], path[1..]))
  }

  lemma {:induction false} SetIsTouched(p: Json, path: seq<Step>)
    requires Read(p, path).Some?
    ensures Touched(p, path)
    decreases |path|
  {
    if path != [] {
      match path[0]
      case Key(k) => SetIsTouched(p.fields[k], path[1..]);
      case Elem(id) => SetIsTouched(p.items[FindId(p.items, id)], path[1..]);
    }
  }

  /** Every leaf of the patch reads back from the merged tree. */
  lemma {:induction false} ReadsBack(d: Json, p: Json, path: seq<Step>)
    requires Named(p) && Read(p, path).Some? && IsLeaf(Read(p, path).value)
    ensures Read(MergeValues(d, p), path) == Read(p, path)
    decreases |path|
  {
    if path == [] {
      assert p.Arr? ==> !p.items[0].Obj?;
    } else {
      match path[0]
      case Key(k) =>
        if d.Obj? && k in d.fields {
          ReadsBack(d.fields[k], p.fields[k], path[1..]);
        }
      case Elem(id) =>
        if d.Arr? {
          ReadsBackElement(d, p, path);
        }
    }
  }

  lemma {:induction false} ReadsBackElement(d: Json, p: Json, path: seq<Step>)
    requires Named(p) && Read(p, path).Some? && IsLeaf(Read(p, path).value)
    requires path != [] && path[0].Elem? && d.Arr?
    ensures Read(MergeValues(d, p), path) == Read(p, path)
    decreases |path|, 0
  {
    var id := path[0].id;
    var j := FindId(p.items, id);
    assert ObjectItems(p.items);
    MergedElement(d.items, p.items, j);
    var i := FindId(d.items, id);
    if i < |d.items| {
      ReadsBack(d.items[i], p.items[j], path[1..]);
    }
  }

  /** The arrays of objects on the way have distinct identities; what lies aside may have any. */
  predicate NamedAlong(p: Json, path: seq<Step>)
    decreases |path|
  {
    path != [] ==>
      match path[0]
      case Key(k) => p.Obj? && k in p.fields && NamedAlong(p.fields[k], path[1..])
      case Elem(id) =>
        && p.Arr? && ObjectItems(p.items) && DistinctIds(p.items)
        && FindId(p.items, id) < |p.items| && NamedAlong(p.items[FindId(p.items, id)], path[1..])
  }

  lemma {:induction false} NamedIsAlong(p: Json, path: seq<Step>)
    requires Named(p) && Read(p, path).Some?
    ensures NamedAlong(p, path)
    decreases |path|
  {
    if path != [] {
      match path[0]
      case Key(k) => NamedIsAlong(p.fields[k], path[1..]);
      case Elem(id) =>
        assert ObjectItems(p.items);
        NamedIsAlong(p.items[FindId(p.items, id)], path[1..]);
    }
  }

  /** Where both trees have something, the merged tree has the merge of the two. */
  lemma {:induction false} ReadsMerged(d: Json, p: Json, path: seq<Step>)
    requires NamedAlong(p, path) && Read(d, path).Some? && Read(p, path).Some?
    ensures Read(MergeValues(d, p), path) == Some(MergeValues(Read(d, path).value, Read(p, path).value))
    decreases |path|
  {
    if path != [] {
      match path[0]
      case Key(k) => ReadsMerged(d.fields[k], p.fields[k], path[1..]);
      case Elem(id) =>
        var i, j := FindId(d.items, id), FindId(p.items, id);
        MergedElement(d.items, p.items, j);
        ReadsMerged(d.items[i], p.items[j], path[1..]);
    }
  }

  /** A path the patch does not touch reads as before, whether something was there or not. */
  lemma {:induction false} UntouchedStays(d: Json, p: Json, path: seq<Step>)
    requires Named(p) && !Touched(p, path)
    ensures Read(MergeValues(d, p), path) == Read(d, path)
    decreases |path|
  {
    if Read(p, path).Some? {
      SetIsTouched(p, path);
    }
    match path[0]
    case Key(k) =>
      if d.Obj? && k in d.fields && k in p.fields {
        UntouchedStays(d.fields[k], p.fields[k], path[1..]);
      }
    case Elem(id) =>
      if d.Arr? {
        if p.items == [] {
          EmptyPatch(d.items);
        } else {
          assert MergeArrays(d.items, p.items) == MergeItems(d.items, p.items);
          var j := FindId(p.items, id);
          if j < |p.items| {
            MergedElement(d.items, p.items, j);
            var i := FindId(d.items, id);
            if i < |d.items| {
              UntouchedStays(d.items[i], p.items[j], path[1..]);
            }
          } else {
            OtherElement(d.items, p.items, id);
          }
        }
      }
  }

  /** Old elements keep position and identity, the new ones follow in the order of the patch. */
  lemma {:induction false} ElementsKeepOrder(d: seq<Json>, p: seq<Json>)
    requires ObjectItems(p) && DistinctIds(p)
    ensures var out := MergeItems(d, p);
      && |d| <= |out|
      && out[|d|..] == Fresh(d, p)
      && forall i, id :: 0 <= i < |d| ==> (HasId(out[i], id) <==> HasId(d[i], id))
  {
    ArraysForm(d, p);
    var kept := KeptAll(d, p);
    forall i, id | 0 <= i < |d| ensures HasId(MergeItems(d, p)[i], id) <==> HasId(d[i], id) {
      KeptIds(d, p, id);
      assert MergeItems(d, p)[i] == kept[i];
    }
  }

  // ---------- pruning a patch ----------

  /** The position of the identity field that decides; |IDENTITY_KEYS| if there is none. */
  function IdField(m: map<string, Json>, i: nat): (r: nat)
    requires i <= |IDENTITY_KEYS|
    ensures i <= r <= |IDENTITY_KEYS|
    ensures r < |IDENTITY_KEYS| ==> IDENTITY_KEYS[r] in m
    decreases |IDENTITY_KEYS| - i
  {
    if i == |IDENTITY_KEYS| then i
    else if IDENTITY_KEYS[i] in m && IsScalar(m[IDENTITY_KEYS[i]]) then i
    else IdField(m, i + 1)
  }

  /** The element has an identity and it is not a zero value such as NUMA node 0. */
  predicate NonZeroId(m: map<string, Json>) {
    && IdFieldsScalar(m)
    && IdField(m, 0) < |IDENTITY_KEYS|
    && Prune(m[IDENTITY_KEYS[IdField(m, 0)]]).Some?
  }

  /** A patch whose object arrays have distinct non-zero identities. */
  predicate WellNamed(j: Json)
    decreases j
  {
    match j
    case Obj(m) => forall k :: k in m ==> WellNamed(m[k])
    case Arr(xs) =>
      || (forall i :: 0 <= i < |xs| ==> IsScalar(xs[i]) || xs[i].Null?)
      || (ObjectItems(xs) && (forall i :: 0 <= i < |xs| ==> NonZeroId(xs[i].fields) && WellNamed(xs[i]))
          && (forall i, j :: 0 <= i < j < |xs| ==> IdOf(xs[i].fields) != IdOf(xs[j].fields)))
    case _ => true
  }

  function Pruned(m: map<string, Json>): map<string, Json> {
    map k | k in m && Prune(m[k]).Some? :: Prune(m[k]).value
  }

  lemma {:induction false} PrunedId(m: map<string, Json>, i: nat)
    requires i <= |IDENTITY_KEYS| && IdFieldsScalar(m) && IdField(m, i) < |IDENTITY_KEYS|
    requires Prune(m[IDENTITY_KEYS[IdField(m, i)]]).Some?
    ensures IdFrom(Pruned(m), i) == IdFrom(m, i) != ""
    decreases |IDENTITY_KEYS| - i
  {
    var k := IDENTITY_KEYS[i];
    if k in m {
      assert IsScalar(m[k]) && Pruned(m)[k] == m[k];
      if m[k].Num? {
        Decimal.ItoaNonEmpty(m[k].n);
      }
    } else {
      PrunedId(m, i + 1);
    }
  }

  /** Pruning an element keeps the element, its identity and its plain identity fields. */
  lemma PrunedElement(m: map<string, Json>)
    requires NonZeroId(m)
    ensures Prune(Obj(m)) == Some(Obj(Pruned(m)))
    ensures IdOf(Pruned(m)) == IdOf(m) != "" && IdFieldsScalar(Pruned(m))
  {
    PrunedId(m, 0);
    assert IDENTITY_KEYS[IdField(m, 0)] in Pruned(m);
    forall i | 0 <= i < |IDENTITY_KEYS| && IDENTITY_KEYS[i] in Pruned(m) ensures IsScalar(Pruned(m)[IDENTITY_KEYS[i]]) {
      assert IsScalar(m[IDENTITY_KEYS[i]]);
    }
  }

  lemma {:induction false} PrunedItems(xs: seq<Json>)
    requires forall i :: 0 <= i < |xs| ==> xs[i].Obj? && NonZeroId(xs[i].fields)
    ensures |PruneItems(xs)| == |xs|
    ensures forall i :: 0 <= i < |xs| ==> PruneItems(xs)[i] == Obj(Pruned(xs[i].fields))
  {
    hide Prune, NonZeroId, Pruned, IdOf;
    if xs != [] {
      PrunedItems(xs[..|xs| - 1]);
      PrunedElement(xs[|xs| - 1].fields);
    }
  }

  lemma {:induction false} PrunedPlain(xs: seq<Json>)
    requires forall i :: 0 <= i < |xs| ==> IsScalar(xs[i]) || xs[i].Null?
    ensures ScalarItems(PruneItems(xs))
    ensures |PruneItems(xs)| <= |xs|
    ensures PruneItems(xs) == xs <==> forall i :: 0 <= i < |xs| ==> Prune(xs[i]).Some?
    ensures |PruneItems(xs)| == |xs| ==> PruneItems(xs) == xs
  {
    if xs != [] {
      PrunedPlain(xs[..|xs| - 1]);
      assert xs == xs[..|xs| - 1] + [xs[|xs| - 1]];
    }
  }

  /** Pruning keeps a well-named patch within reach of the laws above. */
  lemma {:induction false} PruneStaysNamed(j: Json)
    requires WellNamed(j)
    ensures Prune(j).Some? ==> Named(Prune(j).value)
    decreases j
  {
    match j
    case Obj(m) =>
      forall k | k in m ensures Prune(m[k]).Some? ==> Named(Prune(m[k]).value) {
        PruneStaysNamed(m[k]);
      }
    case Arr(xs) =>
      if forall i :: 0 <= i < |xs| ==> IsScalar(xs[i]) || xs[i].Null? {
        PrunedPlain(xs);
      } else {
        forall i | 0 <= i < |xs| ensures Prune(xs[i]).Some? ==> Named(Prune(xs[i]).value) {
          PruneStaysNamed(xs[i]);
        }
        PrunedItemsNamed(xs);
      }
    case _ =>
  }

  lemma {:induction false} PrunedItemsNamed(xs: seq<Json>)
    requires ObjectItems(xs) && forall i :: 0 <= i < |xs| ==> NonZeroId(xs[i].fields)
    requires forall i :: 0 <= i < |xs| ==> Prune(xs[i]).Some? ==> Named(Prune(xs[i]).value)
    requires forall i, j :: 0 <= i < j < |xs| ==> IdOf(xs[i].fields) != IdOf(xs[j].fields)
    ensures Named(Arr(PruneItems(xs)))
  {
    PrunedItems(xs);
    assert forall i :: 0 <= i < |xs| ==> xs[i].Obj?;
    hide *;
    var out := PruneItems(xs);
    forall i | 0 <= i < |xs|
      ensures out[i].Obj? && Named(out[i]) && IdOf(out[i].fields) == IdOf(xs[i].fields) != "" && IdFieldsScalar(out[i].fields)
    {
      PrunedElement(xs[i].fields);
      assert xs[i] == Obj(xs[i].fields);
    }
    NamedArray(xs, out);
  }

  lemma NamedArray(xs: seq<Json>, out: seq<Json>)
    requires ObjectItems(xs) && |out| == |xs|
    requires forall i, j :: 0 <= i < j < |xs| ==> IdOf(xs[i].fields) != IdOf(xs[j].fields)
    requires forall i :: 0 <= i < |xs| ==>
      out[i].Obj? && Named(out[i]) && IdOf(out[i].fields) == IdOf(xs[i].fields) != "" && IdFieldsScalar(out[i].fields)
    ensures Named(Arr(out))
  {
    hide IdOf, IdFieldsScalar;
    assert ObjectItems(out);
    assert DistinctIds(out);
  }

  lemma {:induction false} PrunedFind(xs: seq<Json>, id: string)
    requires forall i :: 0 <= i < |xs| ==> xs[i].Obj? && NonZeroId(xs[i].fields)
    ensures FindId(PruneItems(xs), id) == FindId(xs, id)
  {
    PrunedItems(xs);
    forall i | 0 <= i < |xs| ensures HasId(PruneItems(xs)[i], id) <==> HasId(xs[i], id) {
      PrunedElement(xs[i].fields);
    }
    FindIdIs(PruneItems(xs), id, FindId(xs, id));
  }

  /** What the patch says at a path survives as its pruned self, if that is not a zero value. */
  lemma {:induction false} PruneKeeps(p: Json, path: seq<Step>)
    requires WellNamed(p) && Read(p, path).Some? && Prune(Read(p, path).value).Some?
    ensures Prune(p).Some? && Read(Prune(p).value, path) == Prune(Read(p, path).value)
    decreases |path|
  {
    if path != [] {
      match path[0]
      case Key(k) =>
        PruneKeeps(p.fields[k], path[1..]);
        assert k in Pruned(p.fields);
      case Elem(id) =>
        PrunedFind(p.items, id);
        PrunedItems(p.items);
        var j := FindId(p.items, id);
        PrunedElement(p.items[j].fields);
        PruneKeeps(p.items[j], path[1..]);
    }
  }

  // ---------- the laws of Merge ----------

  /** Merging the same patch twice equals merging it once. */
  lemma {:induction false} MergeIdempotent(dst: Json, patch: Json)
    requires dst.Obj? && patch.Obj? && WellNamed(patch)
    ensures MergeTrees(MergeTrees(dst, patch), patch) == MergeTrees(dst, patch)
  {
    var p := Prune(patch);
    var q := if p.Some? then p.value else Obj(map[]);
    PruneStaysNamed(patch);
    MergeTwice(dst, q);
  }

  /** Every non-zero value of the patch reads back; of a list, its non-zero items. */
  lemma {:induction false} PatchReadsBack(dst: Json, patch: Json, path: seq<Step>)
    requires dst.Obj? && patch.Obj? && WellNamed(patch)
    requires Read(patch, path).Some?
    requires var v := Prune(Read(patch, path).value); v.Some? && IsLeaf(v.value)
    ensures Read(MergeTrees(dst, patch), path) == Prune(Read(patch, path).value)
  {
    PruneStaysNamed(patch);
    PruneKeeps(patch, path);
    ReadsBack(dst, Prune(patch).value, path);
  }

  /** A list reads back unchanged exactly if none of its items is zero: core 0 of a core list is lost. */
  lemma {:induction false} ListReadsBackExactly(dst: Json, patch: Json, path: seq<Step>, xs: seq<Json>)
    requires dst.Obj? && patch.Obj? && WellNamed(patch)
    requires Read(patch, path) == Some(Arr(xs)) && forall i :: 0 <= i < |xs| ==> IsScalar(xs[i])
    requires exists i :: 0 <= i < |xs| && Prune(xs[i]).Some?
    ensures Read(MergeTrees(dst, patch), path) == Some(Arr(xs)) <==> forall i :: 0 <= i < |xs| ==> Prune(xs[i]).Some?
  {
    PrunedPlain(xs);
    SomeSurvive(xs);
    PatchReadsBack(dst, patch, path);
  }

  lemma {:induction false} SomeSurvive(xs: seq<Json>)
    requires exists i :: 0 <= i < |xs| && Prune(xs[i]).Some?
    ensures PruneItems(xs) != []
  {
    if Prune(xs[|xs| - 1]).None? {
      var i :| 0 <= i < |xs| && Prune(xs[i]).Some?;
      assert xs[..|xs| - 1][i] == xs[i];
      SomeSurvive(xs[..|xs| - 1]);
    }
  }

  /** The paths the non-zero part of the patch does not touch read as before. */
  lemma {:induction false} RestUntouched(dst: Json, patch: Json, path: seq<Step>)
    requires dst.Obj? && patch.Obj? && WellNamed(patch)
    requires var p := Prune(patch); path != [] && (p.Some? ==> !Touched(p.value, path))
    ensures Read(MergeTrees(dst, patch), path) == Read(dst, path)
  {
    var p := Prune(patch);
    PruneStaysNamed(patch);
    if p.Some? {
      UntouchedStays(dst, p.value, path);
    } else {
      assert MergeMaps(dst.fields, map[]) == dst.fields;
    }
  }

  /** An empty list in the patch clears nothing, wherever it stands, although the comment on pruning says it does. */
  lemma {:induction false} EmptyListClearsNothing(dst: Json, patch: Json, path: seq<Step>)
    requires dst.Obj? && patch.Obj? && WellNamed(patch)
    requires Read(patch, path) == Some(Arr([])) && Read(dst, path).Some? && Read(dst, path).value.Arr?
    ensures Read(MergeTrees(dst, patch), path) == Read(dst, path)
  {
    PruneStaysNamed(patch);
    PruneKeeps(patch, path);
    NamedIsAlong(Prune(patch).value, path);
    ReadsMerged(dst, Prune(patch).value, path);
    EmptyPatch(Read(dst, path).value.items);
  }
}
