/**
  The merge in plain terms (internal/model/merge.go, internal/model/diff.go:112-121): which values
  count as unset, which field identifies an element, and what happens to the elements of a patch
  that have no identity, such as static NAT entries.
 */
module MergeExact {
  import opened Common
  import opened JsonTree
  import opened Merge
  import opened MergeFacts
  import opened MergeLaws

  // ---------- identity ----------

  /** The fields that may identify an element, the first present one with a plain value wins. */
  predicate Identifies(m: map<string, Json>, i: nat) {
    var keys := ["name", "interface", "prefix", "seq", "node", "server", "page_size"];
    && i < |keys| && keys[i] in m && IsScalar(m[keys[i]])
    && forall j :: 0 <= j < i && keys[j] in m ==> !IsScalar(m[keys[j]])
  }

  lemma {:induction false} IdSkips(m: map<string, Json>, from: nat, i: nat)
    requires from <= i <= |IDENTITY_KEYS|
    requires forall j :: from <= j < i && IDENTITY_KEYS[j] in m ==> !IsScalar(m[IDENTITY_KEYS[j]])
    ensures IdFrom(m, from) == IdFrom(m, i)
    decreases i - from
  {
    if from < i {
      IdSkips(m, from + 1, i);
    }
  }

  lemma IdentityExactly(m: map<string, Json>)
    ensures forall i: nat :: Identifies(m, i) ==>
      IdOf(m) == ScalarString(m[["name", "interface", "prefix", "seq", "node", "server", "page_size"][i]])
    ensures (forall i: nat :: !Identifies(m, i)) ==> IdOf(m) == ""
  {
    var keys := ["name", "interface", "prefix", "seq", "node", "server", "page_size"];
    assert keys == IDENTITY_KEYS;
    forall i: nat | Identifies(m, i) ensures IdOf(m) == ScalarString(m[keys[i]]) {
      IdSkips(m, 0, i);
    }
    if forall i: nat :: !Identifies(m, i) {
      NoneIdentifies(m, |keys|);
      IdSkips(m, 0, |keys|);
    }
  }

  lemma {:induction false} NoneIdentifies(m: map<string, Json>, n: nat)
    requires n <= |IDENTITY_KEYS| && forall i: nat :: !Identifies(m, i)
    ensures forall j :: 0 <= j < n && IDENTITY_KEYS[j] in m ==> !IsScalar(m[IDENTITY_KEYS[j]])
  {
    if n > 0 {
      NoneIdentifies(m, n - 1);
      assert !Identifies(m, n - 1);
    }
  }

  // ---------- what counts as unset ----------

  /** There is something in the value: a true, a number that is not zero, a text, or an empty container. */
  predicate Holds(j: Json)
    decreases j
  {
    match j
    case Null => false
    case Bool(b) => b
    case Num(n) => n != 0
    case Str(s) => s != ""
    case Arr(xs) => xs == [] || exists i :: 0 <= i < |xs| && Holds(xs[i])
    case Obj(m) => m == map[] || exists k :: k in m && Holds(m[k])
  }

  /** Where item `i` of an array stands after pruning. */
  function Place(xs: seq<Json>, i: nat): nat
    requires i <= |xs|
  {
    |PruneItems(xs[..i])|
  }

  lemma PlaceInit(xs: seq<Json>)
    requires xs != []
    ensures forall i :: 0 <= i < |xs| ==> Place(xs, i) == Place(xs[..|xs| - 1], i)
    ensures Place(xs, |xs| - 1) == |PruneItems(xs[..|xs| - 1])| && Place(xs, |xs|) == |PruneItems(xs)|
  {
    var init := xs[..|xs| - 1];
    forall i | 0 <= i < |xs| ensures Place(xs, i) == Place(init, i) {
      assert xs[..i] == init[..i];
    }
    assert xs[..|xs|] == xs;
  }

  lemma {:induction false} LastPruned(xs: seq<Json>)
    requires xs != [] && (Prune(xs[|xs| - 1]).Some? <==> Holds(xs[|xs| - 1]))
    ensures var init, last := PruneItems(xs[..|xs| - 1]), xs[|xs| - 1];
      if Holds(last) then Prune(last).Some? && PruneItems(xs) == init + [Prune(last).value] else PruneItems(xs) == init
  {
  }

  lemma {:induction false} ItemsPruned(xs: seq<Json>)
    requires forall i :: 0 <= i < |xs| ==> (Prune(xs[i]).Some? <==> Holds(xs[i]))
    ensures PruneItems(xs) == [] <==> forall i :: 0 <= i < |xs| ==> !Holds(xs[i])
    ensures forall i :: 0 <= i < |xs| && Holds(xs[i]) ==>
      Place(xs, i) < |PruneItems(xs)| && Some(PruneItems(xs)[Place(xs, i)]) == Prune(xs[i])
    ensures |PruneItems(xs)| <= |xs|
  {
    hide Holds, Prune, PruneItems, Place;
    if xs == [] {
      assert PruneItems([]) == [] by { NothingPruned(); }
    } else {
      var n := |xs| - 1;
      var init := xs[..n];
      assert forall i :: 0 <= i < n ==> init[i] == xs[i];
      ItemsPruned(init);
      PlaceInit(xs);
      LastPruned(xs);
    }
  }

  lemma NothingPruned()
    ensures PruneItems([]) == []
  {
  }

  /** Pruning keeps exactly what holds something, the items of a list in their order. */
  lemma {:induction false} PruneExactly(j: Json)
    ensures Prune(j).Some? <==> Holds(j)
    ensures Holds(j) && IsScalar(j) ==> Prune(j) == Some(j)
    ensures Holds(j) && j.Obj? ==>
      && Prune(j).value.Obj?
      && (forall k :: k in Prune(j).value.fields <==> k in j.fields && Holds(j.fields[k]))
      && (forall k :: k in j.fields && Holds(j.fields[k]) ==> Some(Prune(j).value.fields[k]) == Prune(j.fields[k]))
    ensures Holds(j) && j.Arr? ==> Prune(j) == Some(Arr(PruneItems(j.items)))
    decreases j
  {
    match j
    case Obj(m) =>
      forall k | k in m ensures Prune(m[k]).Some? <==> Holds(m[k]) {
        PruneExactly(m[k]);
      }
      var out := map k | k in m && Prune(m[k]).Some? :: Prune(m[k]).value;
      if k :| k in m && Holds(m[k]) {
        assert k in out;
      }
      if out != map[] {
        var k :| k in out;
        assert Holds(m[k]);
      }
    case Arr(xs) =>
      forall i | 0 <= i < |xs| ensures Prune(xs[i]).Some? <==> Holds(xs[i]) {
        PruneExactly(xs[i]);
      }
      ItemsPruned(xs);
    case _ =>
  }

  // ---------- elements without identity ----------

  predicate Nameless(j: Json) {
    j.Obj? && IdOf(j.fields) == ""
  }

  /** The elements without identity, in order. */
  function NamelessOf(xs: seq<Json>): seq<Json> {
    if xs == [] then [] else NamelessOf(xs[..|xs| - 1]) + if Nameless(xs[|xs| - 1]) then [xs[|xs| - 1]] else []
  }

  lemma {:induction false} NamelessConcat(a: seq<Json>, c: seq<Json>)
    ensures NamelessOf(a + c) == NamelessOf(a) + NamelessOf(c)
  {
    if c == [] {
      assert a + c == a;
    } else {
      NamelessConcat(a, c[..|c| - 1]);
      assert (a + c)[..|a| + |c| - 1] == a + c[..|c| - 1];
    }
  }

  lemma {:induction false} NamelessReplaced(xs: seq<Json>, i: nat, e: Json)
    requires i < |xs| && !Nameless(xs[i]) && !Nameless(e)
    ensures NamelessOf(xs[i := e]) == NamelessOf(xs)
  {
    var n := |xs| - 1;
    if i == n {
      assert xs[i := e][..n] == xs[..n];
    } else {
      assert xs[i := e][..n] == xs[..n][i := e];
      NamelessReplaced(xs[..n], i, e);
    }
  }

  /** What one element of the patch does to the array so far. */
  lemma {:induction false} OneElement(out: seq<Json>, pe: Json)
    requires pe.Obj?
    ensures var i := FindId(out, IdOf(pe.fields)); var r := MergeItems(out, [pe]);
      if IdOf(pe.fields) == "" || i == |out| then r == out + [pe]
      else r == out[i := Obj(MergeMaps(out[i].fields, pe.fields))]
  {
    assert MergeItems(out, []) == out && [pe][..0] == [];
  }

  lemma LastElement(d: seq<Json>, p: seq<Json>)
    requires ObjectItems(p) && p != []
    ensures ObjectItems(p[..|p| - 1]) && MergeItems(d, p) == MergeItems(MergeItems(d, p[..|p| - 1]), [p[|p| - 1]])
  {
    OneElement(MergeItems(d, p[..|p| - 1]), p[|p| - 1]);
    hide FindId, IdOf, MergeMaps;
  }

  /** The old elements keep their places, and one without identity is never changed. */
  lemma {:induction false} OldInPlace(d: seq<Json>, p: seq<Json>)
    requires ObjectItems(p)
    ensures |MergeItems(d, p)| >= |d|
    ensures forall i :: 0 <= i < |d| ==> (MergeItems(d, p)[i].Obj? <==> d[i].Obj?)
    ensures forall i :: 0 <= i < |d| && (!d[i].Obj? || Nameless(d[i])) ==> MergeItems(d, p)[i] == d[i]
  {
    if p != [] {
      var init, pe := p[..|p| - 1], p[|p| - 1];
      LastElement(d, p);
      OldInPlace(d, init);
      OneElement(MergeItems(d, init), pe);
      hide MergeItems, IdOf, MergeMaps;
    }
  }

  /** One more element of the patch: nothing without identity is lost or changed, and at most this one is added. */
  lemma {:induction false} StepKeeps(d: seq<Json>, p: seq<Json>)
    requires ObjectItems(p) && p != []
    ensures ObjectItems(p[..|p| - 1])
    ensures var out, r, pe := MergeItems(d, p[..|p| - 1]), MergeItems(d, p), p[|p| - 1];
      && |out| <= |r|
      && (forall i :: 0 <= i < |out| && Nameless(out[i]) ==> r[i] == out[i])
      && (Nameless(pe) ==> r == out + [pe])
      && (IdFieldsScalar(pe.fields) ==> NamelessOf(r) == NamelessOf(out) + if Nameless(pe) then [pe] else [])
  {
    LastElement(d, p);
    var out, pe := MergeItems(d, p[..|p| - 1]), p[|p| - 1];
    var id := IdOf(pe.fields);
    OneElement(out, pe);
    var i := FindId(out, id);
    if id == "" || i == |out| {
      NamelessConcat(out, [pe]);
      assert [pe][..0] == [];
      assert NamelessOf([pe]) == if Nameless(pe) then [pe] else [];
    } else if IdFieldsScalar(pe.fields) {
      MergedId(out[i].fields, pe.fields);
      NamelessReplaced(out, i, Obj(MergeMaps(out[i].fields, pe.fields)));
      assert NamelessOf(out) + [] == NamelessOf(out);
    }
    hide MergeItems, MergeMaps, IdFieldsScalar, NamelessOf, IdOf;
  }

  /** The position at which element `n` of the patch would be appended. */
  function Slot(d: seq<Json>, p: seq<Json>, n: nat): nat
    requires ObjectItems(p) && n <= |p|
  {
    |MergeItems(d, p[..n])|
  }

  lemma {:induction false} SlotInit(d: seq<Json>, p: seq<Json>)
    requires ObjectItems(p) && p != []
    ensures forall n :: 0 <= n < |p| ==> Slot(d, p, n) == Slot(d, p[..|p| - 1], n)
    ensures Slot(d, p, |p| - 1) == |MergeItems(d, p[..|p| - 1])| && Slot(d, p, |p|) == |MergeItems(d, p)|
  {
    hide MergeItems;
    var init := p[..|p| - 1];
    forall n | 0 <= n < |p| ensures Slot(d, p, n) == Slot(d, init, n) {
      assert p[..n] == init[..n];
    }
    assert p[..|p|] == p;
  }

  /**
    Every patch element without identity stands in the merged array as it was written, behind the
    old elements and in the order of the patch.
   */
  lemma {:induction false} NamelessAppended(d: seq<Json>, p: seq<Json>)
    requires ObjectItems(p)
    ensures forall n :: 0 <= n <= |p| ==> |d| <= Slot(d, p, n) <= |MergeItems(d, p)|
    ensures forall n, m :: 0 <= n < m < |p| && Nameless(p[n]) ==> Slot(d, p, n) < Slot(d, p, m)
    ensures forall n :: 0 <= n < |p| && Nameless(p[n]) ==>
      Slot(d, p, n) < |MergeItems(d, p)| && MergeItems(d, p)[Slot(d, p, n)] == p[n]
  {
    hide *;
    OldInPlace(d, p);
    if p == [] {
      NoPatch(d, p);
    } else {
      var last := |p| - 1;
      StepKeeps(d, p);
      NamelessAppended(d, p[..last]);
      SlotInit(d, p);
    }
  }

  lemma {:induction false} NoPatch(d: seq<Json>, p: seq<Json>)
    requires p == []
    ensures MergeItems(d, p) == d && Slot(d, p, 0) == |d| && NamelessOf(p) == []
  {
  }

  /** Behind the old elements exactly those of the patch have no identity, each as often as the patch has it. */
  lemma {:induction false} NamelessExactly(d: seq<Json>, p: seq<Json>)
    requires ObjectItems(p) && forall i :: 0 <= i < |p| ==> IdFieldsScalar(p[i].fields)
    ensures NamelessOf(MergeItems(d, p)) == NamelessOf(d) + NamelessOf(p)
  {
    hide MergeItems, Nameless, IdFieldsScalar;
    if p == [] {
      NoPatch(d, p);
      assert NamelessOf(d) + [] == NamelessOf(d);
    } else {
      StepKeeps(d, p);
      NamelessExactly(d, p[..|p| - 1]);
      var more := if Nameless(p[|p| - 1]) then [p[|p| - 1]] else [];
      assert NamelessOf(d) + NamelessOf(p[..|p| - 1]) + more == NamelessOf(d) + (NamelessOf(p[..|p| - 1]) + more);
    }
  }

  /** An array of nothing but such elements is appended as a whole. */
  lemma {:induction false} AllNameless(d: seq<Json>, p: seq<Json>)
    requires forall i :: 0 <= i < |p| ==> Nameless(p[i])
    ensures ObjectItems(p) && MergeItems(d, p) == d + p && MergeArrays(d, p) == d + p
  {
    if p != [] {
      AllNameless(d, p[..|p| - 1]);
      assert p == p[..|p| - 1] + [p[|p| - 1]];
      assert d + p[..|p| - 1] + [p[|p| - 1]] == d + p;
    } else {
      assert d + p == d;
    }
  }

  /** So merging it again appends it again: exactly the empty one may be merged twice. */
  lemma {:induction false} NamelessDoubles(d: seq<Json>, p: seq<Json>)
    requires forall i :: 0 <= i < |p| ==> Nameless(p[i])
    ensures MergeArrays(MergeArrays(d, p), p) == d + p + p
    ensures MergeArrays(MergeArrays(d, p), p) == MergeArrays(d, p) <==> p == []
  {
    AllNameless(d, p);
    AllNameless(d + p, p);
    assert |d + p + p| == |d| + 2 * |p|;
  }

  /** One plain value in the patch replaces the whole array. */
  lemma {:induction false} PlainReplaces(d: seq<Json>, p: seq<Json>, i: nat)
    requires i < |p| && !p[i].Obj?
    ensures MergeArrays(d, p) == p
  {
  }

  // ---------- the same in whole trees ----------

  /** The arrays of objects on the way to the path have distinct non-zero identities; others may be anything. */
  predicate WellNamedAlong(p: Json, path: seq<Step>)
    decreases |path|
  {
    path != [] ==>
      match path[0]
      case Key(k) => p.Obj? && k in p.fields && WellNamedAlong(p.fields[k], path[1..])
      case Elem(id) =>
        && p.Arr? && ObjectItems(p.items) && (forall i :: 0 <= i < |p.items| ==> NonZeroId(p.items[i].fields))
        && (forall i, j :: 0 <= i < j < |p.items| ==> IdOf(p.items[i].fields) != IdOf(p.items[j].fields))
        && FindId(p.items, id) < |p.items| && WellNamedAlong(p.items[FindId(p.items, id)], path[1..])
  }

  lemma {:induction false} PruneKeepsAlong(p: Json, path: seq<Step>)
    requires WellNamedAlong(p, path) && Read(p, path).Some? && Prune(Read(p, path).value).Some?
    ensures Prune(p).Some? && Read(Prune(p).value, path) == Prune(Read(p, path).value)
    ensures NamedAlong(Prune(p).value, path)
    decreases |path|
  {
    if path != [] {
      match path[0]
      case Key(k) =>
        PruneKeepsAlong(p.fields[k], path[1..]);
        assert k in Pruned(p.fields);
      case Elem(id) =>
        PrunedFind(p.items, id);
        PrunedItems(p.items);
        var j := FindId(p.items, id);
        PrunedElement(p.items[j].fields);
        PruneKeepsAlong(p.items[j], path[1..]);
        PrunedDistinct(p.items);
    }
  }

  lemma {:induction false} PrunedDistinct(xs: seq<Json>)
    requires ObjectItems(xs) && forall i :: 0 <= i < |xs| ==> NonZeroId(xs[i].fields)
    requires forall i, j :: 0 <= i < j < |xs| ==> IdOf(xs[i].fields) != IdOf(xs[j].fields)
    ensures ObjectItems(PruneItems(xs)) && DistinctIds(PruneItems(xs))
  {
    assert forall i :: 0 <= i < |xs| ==> xs[i].Obj?;
    hide *;
    PrunedItems(xs);
    var out := PruneItems(xs);
    forall i | 0 <= i < |xs|
      ensures out[i].Obj? && IdOf(out[i].fields) == IdOf(xs[i].fields) != "" && IdFieldsScalar(out[i].fields)
    {
      PrunedElement(xs[i].fields);
      assert xs[i] == Obj(xs[i].fields);
    }
    SameIds(xs, out);
  }

  lemma SameIds(xs: seq<Json>, out: seq<Json>)
    requires ObjectItems(xs) && |out| == |xs|
    requires forall i, j :: 0 <= i < j < |xs| ==> IdOf(xs[i].fields) != IdOf(xs[j].fields)
    requires forall i :: 0 <= i < |xs| ==>
      out[i].Obj? && IdOf(out[i].fields) == IdOf(xs[i].fields) != "" && IdFieldsScalar(out[i].fields)
    ensures ObjectItems(out) && DistinctIds(out)
  {
    hide IdOf, IdFieldsScalar;
  }

  /** A list in the patch whose entries have no identity is appended, without its empty entries, to the list that is there. */
  lemma {:induction false} NamelessMerged(dst: Json, patch: Json, path: seq<Step>, was: seq<Json>, xs: seq<Json>)
    requires dst.Obj? && patch.Obj? && WellNamedAlong(patch, path)
    requires Read(dst, path) == Some(Arr(was)) && Read(patch, path) == Some(Arr(xs))
    requires forall i :: 0 <= i < |PruneItems(xs)| ==> Nameless(PruneItems(xs)[i])
    requires exists i :: 0 <= i < |xs| && Holds(xs[i])
    ensures Read(MergeTrees(dst, patch), path) == Some(Arr(was + PruneItems(xs)))
  {
    PruneExactly(Arr(xs));
    PruneKeepsAlong(patch, path);
    PruneExactly(patch);
    ReadsMerged(dst, Prune(patch).value, path);
    AllNameless(was, PruneItems(xs));
  }

  /** nat.static is such a list: a new entry joins the old ones, whatever else the patch holds. */
  lemma {:induction false} StaticNatJoins(dst: Json, patch: Json, was: seq<Json>, inside: string, outside: string)
    requires dst.Obj? && patch.Obj? && inside != "" && outside != ""
    requires var path := [Key("nat"), Key("static")];
      && Read(dst, path) == Some(Arr(was))
      && Read(patch, path) == Some(Arr([Obj(map["inside_ip" := Str(inside), "outside_ip" := Str(outside)])]))
    ensures Read(MergeTrees(dst, patch), [Key("nat"), Key("static")]) ==
      Some(Arr(was + [Obj(map["inside_ip" := Str(inside), "outside_ip" := Str(outside)])]))
  {
    var path, m := [Key("nat"), Key("static")], map["inside_ip" := Str(inside), "outside_ip" := Str(outside)];
    var e := Obj(m);
    assert path[1..] == [Key("static")] && path[1..][1..] == [];
    assert Holds(m["inside_ip"]) && Holds(m["outside_ip"]);
    PruneExactly(e);
    PruneExactly(m["inside_ip"]);
    PruneExactly(m["outside_ip"]);
    assert Prune(e).value.fields == m;
    assert [e][..0] == [];
    assert PruneItems([e]) == [e];
    IdentityExactly(m);
    assert WellNamedAlong(patch, path);
    assert Holds([e][0]);
    NamelessMerged(dst, patch, path, was, [e]);
  }
}
