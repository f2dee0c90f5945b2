/**
  Incremental merge of configuration trees (internal/model/merge.go, with the element identity of
  internal/model/diff.go): zero values of the patch are pruned, objects are merged by key, arrays
  of objects by identity, everything else is replaced.
 */
module Merge {
  import opened Common
  import opened Ordering
  import opened JsonTree

  // ---------- identity ----------

  const IDENTITY_KEYS: seq<string> := ["name", "interface", "prefix", "seq", "node", "server", "page_size"]

  function IdFrom(m: map<string, Json>, i: nat): string
    requires i <= |IDENTITY_KEYS|
    decreases |IDENTITY_KEYS| - i
  {
    if i == |IDENTITY_KEYS| then ""
    else if IDENTITY_KEYS[i] in m && IsScalar(m[IDENTITY_KEYS[i]]) then ScalarString(m[IDENTITY_KEYS[i]])
    else IdFrom(m, i + 1)
  }

  /** identityOf: the first scalar identity field; "" if there is none. */
  function IdOf(m: map<string, Json>): string {
    IdFrom(m, 0)
  }

  predicate HasId(j: Json, id: string) {
    j.Obj? && IdOf(j.fields) == id
  }

  /** The first element with this identity; |xs| if there is none. */
  function FindId(xs: seq<Json>, id: string): (i: nat)
    ensures i <= |xs|
    ensures i < |xs| ==> HasId(xs[i], id)
    ensures forall j :: 0 <= j < i ==> !HasId(xs[j], id)
  {
    if xs == [] then 0 else if HasId(xs[0], id) then 0 else 1 + FindId(xs[1..], id)
  }

  // ---------- pruneZero ----------

  /** None: the value counts as unset. */
  function Prune(j: Json): Option<Json>
    decreases j, 1
  {
    match j
    case Null => None
    case Bool(b) => if b then Some(j) else None
    case Num(n) => if n != 0 then Some(j) else None
    case Str(s) => if s != "" then Some(j) else None
    case Arr(xs) =>
      var out := PruneItems(xs);
      if out != [] || xs == [] then Some(Arr(out)) else None
    case Obj(m) =>
      var out := map k | k in m && Prune(m[k]).Some? :: Prune(m[k]).value;
      if out != map[] || m == map[] then Some(Obj(out)) else None
  }

  function PruneItems(xs: seq<Json>): seq<Json>
    decreases xs, 0
  {
    if xs == [] then []
    else
      var p := Prune(xs[|xs| - 1]);
      PruneItems(xs[..|xs| - 1]) + if p.Some? then [p.value] else []
  }

  // ---------- mergeMaps, mergeArrays ----------

  function MergeMaps(d: map<string, Json>, p: map<string, Json>): map<string, Json>
    decreases Obj(p), 0
  {
    map k | k in d.Keys + p.Keys ::
      if k !in p then d[k] else if k !in d then p[k]
      else assert p[k] < Obj(p); MergeValues(d[k], p[k])
  }

  function MergeValues(d: Json, p: Json): Json
    decreases p, 1
  {
    if d.Obj? && p.Obj? then Obj(MergeMaps(d.fields, p.fields))
    else if d.Arr? && p.Arr? then Arr(MergeArrays(d.items, p.items))
    else p
  }

  /** One element of the patch that is not an object replaces the whole array. */
  function MergeArrays(d: seq<Json>, p: seq<Json>): seq<Json>
    decreases p, 1
  {
    if exists i :: 0 <= i < |p| && !p[i].Obj? then p else MergeItems(d, p)
  }

  function MergeItems(d: seq<Json>, p: seq<Json>): seq<Json>
    requires forall i :: 0 <= i < |p| ==> p[i].Obj?
    decreases p, 0
  {
    if p == [] then d
    else
      var out, pe := MergeItems(d, p[..|p| - 1]), p[|p| - 1];
      var id := IdOf(pe.fields);
      var i := FindId(out, id);
      if id == "" || i == |out| then out + [pe]
      else out[i := Obj(MergeMaps(out[i].fields, pe.fields))]
  }

  /** Merge on trees: `dst` and `patch` are objects. */
  function MergeTrees(dst: Json, patch: Json): Json
    requires dst.Obj? && patch.Obj?
  {
    var p := Prune(patch);
    Obj(MergeMaps(dst.fields, if p.Some? && p.value.Obj? then p.value.fields else map[]))
  }

  // ---------- the loops ----------

  method IdentityOf(m: map<string, Json>) returns (id: string)
    ensures id == IdOf(m)
  {
    for i := 0 to |IDENTITY_KEYS|
      invariant IdOf(m) == IdFrom(m, i)
    {
      var k := IDENTITY_KEYS[i];
      if k in m && IsScalar(m[k]) {
        return ScalarString(m[k]);
      }
    }
    id := "";
  }

  method PruneZero(v: Json) returns (out: Json, keep: bool)
    ensures keep == Prune(v).Some? && (keep ==> out == Prune(v).value)
    decreases v
  {
    match v
    case Obj(m) =>
      var fields: map<string, Json> := map[];
      var rest := m.Keys;
      while rest != {}
        invariant rest <= m.Keys
        invariant fields == map k | k in m && k !in rest && Prune(m[k]).Some? :: Prune(m[k]).value
        decreases rest
      {
        var k := AnyOf(rest);
        rest := rest - {k};
        var e, ok := PruneZero(m[k]);
        if ok {
          fields := fields[k := e];
        }
      }
      out, keep := Obj(fields), fields != map[] || m == map[];
    case Arr(xs) =>
      var items: seq<Json> := [];
      for i := 0 to |xs|
        invariant items == PruneItems(xs[..i])
      {
        assert xs[..i + 1][..i] == xs[..i];
        var e, ok := PruneZero(xs[i]);
        if ok {
          items := items + [e];
        }
      }
      assert xs[..|xs|] == xs;
      out, keep := Arr(items), items != [] || xs == [];
    case Str(s) => out, keep := v, s != "";
    case Num(n) => out, keep := v, n != 0;
    case Bool(b) => out, keep := v, b;
    case Null => out, keep := v, false;
  }

  method ComputeMergeMaps(d: map<string, Json>, p: map<string, Json>) returns (out: map<string, Json>)
    ensures out == MergeMaps(d, p)
    decreases Obj(p), 0
  {
    out := d;
    var rest := p.Keys;
    while rest != {}
      invariant rest <= p.Keys
      invariant out.Keys == d.Keys + (p.Keys - rest)
      invariant forall k :: k in out ==> out[k] == if k in rest then d[k] else MergeMaps(d, p)[k]
      decreases rest
    {
      var k := AnyOf(rest);
      assert p[k] < Obj(p);
      rest := rest - {k};
      if k !in out {
        out := out[k := p[k]];
      } else if out[k].Obj? && p[k].Obj? {
        var m := ComputeMergeMaps(out[k].fields, p[k].fields);
        out := out[k := Obj(m)];
      } else if out[k].Arr? && p[k].Arr? {
        var xs := ComputeMergeArrays(out[k].items, p[k].items);
        out := out[k := Arr(xs)];
      } else {
        out := out[k := p[k]];
      }
    }
  }

  method ComputeMergeArrays(d: seq<Json>, p: seq<Json>) returns (out: seq<Json>)
    ensures out == MergeArrays(d, p)
    decreases p, 1
  {
    hide IdFrom, IdOf, FindId, MergeMaps;
    out := d;
    for n := 0 to |p|
      invariant forall i :: 0 <= i < n ==> p[i].Obj?
      invariant out == MergeItems(d, p[..n])
    {
      assert p[..n + 1][..n] == p[..n];
      if !p[n].Obj? {
        return p;
      }
      var pm := p[n].fields;
      var pid := IdentityOf(pm);
      if pid == "" {
        out := out + [p[n]];
      } else {
        var i := LocateId(out, pid);
        if i < |out| {
          var m := ComputeMergeMaps(out[i].fields, pm);
          out := out[i := Obj(m)];
        } else {
          out := out + [p[n]];
        }
      }
    }
    assert p[..|p|] == p;
  }

  method LocateId(xs: seq<Json>, id: string) returns (i: nat)
    ensures i == FindId(xs, id)
  {
    i := 0;
    while i < |xs|
      invariant i <= |xs|
      invariant FindId(xs, id) == i + FindId(xs[i..], id)
    {
      assert xs[i..][1..] == xs[i + 1..];
      if xs[i].Obj? {
        var did := IdentityOf(xs[i].fields);
        if did == id {
          return;
        }
      }
      i := i + 1;
    }
  }
}
