/**
  The round trip of the statement language: exactly the trees that plain set statements build
  come back when their printed statements are replayed on an empty tree
  (internal/api/setstmt.go:222-398, internal/api/cliexec.go:1432-1739).
 */
module StatementRoundTrip {
  import opened Common
  import opened Ordering
  import opened JsonTree
  import opened Schema
  import opened Statements
  import opened StatementFacts
  import Quoting

  // ---------- replaying ----------

  lemma {:induction false} ReplayConcat(node: Node, up: seq<Node>, t: map<string, Json>, xs: seq<Statement>, ys: seq<Statement>)
    ensures Replay(node, up, t, xs + ys) ==
      match Replay(node, up, t, xs) case Err(e) => Err(e) case Ok(u) => Replay(node, up, u, ys)
    decreases |xs|
  {
    hide Run;
    if xs == [] {
      assert xs + ys == ys;
    } else {
      assert (xs + ys)[0] == xs[0] && (xs + ys)[1..] == xs[1..] + ys;
      var r := Run(node, up, t, Idle, xs[0]);
      if r.Ok? {
        ReplayConcat(node, up, r.value, xs[1..], ys);
      }
    }
  }

  lemma {:induction false} ReplayOne(node: Node, up: seq<Node>, t: map<string, Json>, s: Statement)
    ensures Replay(node, up, t, [s]) == Run(node, up, t, Idle, s)
  {
    hide Run;
    var r := Run(node, up, t, Idle, s);
    assert [s][1..] == [];
    if r.Ok? {
      assert Replay(node, up, r.value, []) == Ok(r.value);
    }
  }

  lemma {:induction false} ReplayNothing(node: Node, up: seq<Node>, t: map<string, Json>)
    ensures Replay(node, up, t, []) == Ok(t)
  {
  }

  /** Statements under an object keyword act on the object below. */
  lemma {:induction false} ReplayObject(node: Node, up: seq<Node>, cur: map<string, Json>, c: Node, ss: seq<Statement>)
    requires FindKeyword(node.children, c.name) == Some(c) && IsObjectKeyword(c) && ss != []
    requires forall i :: 0 <= i < |ss| ==> ss[i] != []
    ensures Replay(node, up, cur, Under([c.name], ss)) ==
      match Replay(c, [node] + up, FieldsAt(cur, KeyOf(c)), ss)
      case Err(e) => Err(e)
      case Ok(m) => Ok(cur[KeyOf(c) := Obj(m)])
    decreases |ss|
  {
    hide Run;
    var key := KeyOf(c);
    RunObject(node, up, cur, c, ss[0]);
    var all := Under([c.name], ss);
    assert all[0] == [c.name] + ss[0] && all[1..] == Under([c.name], ss[1..]);
    var r := Run(c, [node] + up, FieldsAt(cur, key), Idle, ss[0]);
    if r.Ok? {
      var next := cur[key := Obj(r.value)];
      if |ss| == 1 {
        assert ss == [ss[0]] && all == [all[0]];
        ReplayOne(node, up, cur, all[0]);
        ReplayOne(c, [node] + up, FieldsAt(cur, key), ss[0]);
      } else {
        ReplayObject(node, up, next, c, ss[1..]);
        var q := Replay(c, [node] + up, r.value, ss[1..]);
        if q.Ok? {
          assert next[key := Obj(q.value)] == cur[key := Obj(q.value)];
        }
      }
    }
  }

  /** Statements under the name of an existing element act on that element. */
  lemma {:induction false} ReplayElement(node: Node, up: seq<Node>, cur: map<string, Json>, c: Node, id: string, ss: seq<Statement>, i: nat)
    requires WellFormed(node) && IsKeywordOf(node, c) && IsArrayKeyword(c)
    requires KeyOf(c) in cur && cur[KeyOf(c)].Arr? && i < |cur[KeyOf(c)].items|
    requires i == Select(cur[KeyOf(c)].items, IdentityField(KeyOf(c)), id)
    requires AllDirect(FirstParam(c).value, ss, false)
    requires Replay(FirstParam(c).value, [c, node] + up, cur[KeyOf(c)].items[i].fields, ss).Ok?
    ensures Replay(node, up, cur, Under([c.name, id], ss)) ==
      Ok(cur[KeyOf(c) := Arr(cur[KeyOf(c)].items[i := Obj(Replay(FirstParam(c).value, [c, node] + up, cur[KeyOf(c)].items[i].fields, ss).value)])])
    decreases |ss|
  {
    hide *;
    DirectChild(node, c);
    ArrayParam(node, c);
    var key, p, items := KeyOf(c), FirstParam(c).value, cur[KeyOf(c)].items;
    SelectedIsObject(items, IdentityField(key), id);
    var ident, e := IdentityField(key), items[i].fields;
    var all := Under([c.name, id], ss);
    if ss == [] {
      NoStatements(node, up, cur, [c.name, id]);
      NoStatements(p, [c, node] + up, e, []);
      assert items[i := Obj(e)] == items;
      assert cur[key := Arr(items)] == cur;
    } else {
      FirstDirect(p, ss);
      ReplayFirst(p, [c, node] + up, e, ss);
      var one := Run(p, [c, node] + up, e, Idle, ss[0]).value;
      ExistingElement(node, up, cur, c, id, ss[0], i, one);
      var items1 := items[i := Obj(one)];
      var next := cur[key := Arr(items1)];
      UnderFirst([c.name, id], ss);
      ReplayElement(node, up, next, c, id, ss[1..], i);
      var r := Replay(p, [c, node] + up, one, ss[1..]).value;
      assert items1[i := Obj(r)] == items[i := Obj(r)];
      assert next[key := Arr(items[i := Obj(r)])] == cur[key := Arr(items[i := Obj(r)])];
      ReplayFirst(node, up, cur, all);
    }
  }

  lemma {:induction false} SelectedIsObject(items: seq<Json>, ident: string, tok: string)
    requires Select(items, ident, tok) < |items|
    ensures items[Select(items, ident, tok)].Obj?
  {
  }

  lemma UnderFirst(prefix: Statement, ss: seq<Statement>)
    requires ss != []
    ensures Under(prefix, ss)[0] == prefix + ss[0] && Under(prefix, ss)[1..] == Under(prefix, ss[1..])
  {
  }

  lemma {:induction false} NoStatements(node: Node, up: seq<Node>, t: map<string, Json>, prefix: Statement)
    ensures Replay(node, up, t, Under(prefix, [])) == Ok(t) && Replay(node, up, t, []) == Ok(t)
  {
  }

  lemma {:induction false} FirstDirect(p: Node, ss: seq<Statement>)
    requires AllDirect(p, ss, false) && ss != []
    ensures Direct(p, ss[0], false) && AllDirect(p, ss[1..], false)
  {
    hide Direct;
  }

  /** One statement on an element that is there already; the element can still be found by its name. */
  lemma {:induction false} ExistingElement(node: Node, up: seq<Node>, cur: map<string, Json>, c: Node, id: string, s: Statement, i: nat, one: map<string, Json>)
    requires WellFormed(node) && IsKeywordOf(node, c) && IsArrayKeyword(c)
    requires KeyOf(c) in cur && cur[KeyOf(c)].Arr? && i < |cur[KeyOf(c)].items|
    requires i == Select(cur[KeyOf(c)].items, IdentityField(KeyOf(c)), id)
    requires Direct(FirstParam(c).value, s, false)
    requires Run(FirstParam(c).value, [c, node] + up, cur[KeyOf(c)].items[i].fields, Idle, s) == Ok(one)
    ensures var items := cur[KeyOf(c)].items[i := Obj(one)];
      && Run(node, up, cur, Idle, [c.name, id] + s) == Ok(cur[KeyOf(c) := Arr(items)])
      && Select(items, IdentityField(KeyOf(c)), id) == i
  {
    hide Run, IdentityField, TypedScalar, FindKind, JsonKey, WellFormed, Owned, Direct;
    var key, p, items := KeyOf(c), FirstParam(c).value, cur[KeyOf(c)].items;
    DirectChild(node, c);
    NotEmpty(p, s);
    RunElement(node, up, cur, c, id, s);
    assert ItemsAt(cur, key) == items && WithElement(items, IdentityField(key), id) == items;
    RunFrame(p, [c, node] + up, items[i].fields, s, IdentityField(key));
    ElementKeepsPlace(items, IdentityField(key), id, i, one);
  }

  lemma {:induction false} NotEmpty(node: Node, s: Statement)
    requires Direct(node, s, false)
    ensures s != []
  {
  }

  lemma {:induction false} ReplayFirst(node: Node, up: seq<Node>, t: map<string, Json>, ss: seq<Statement>)
    requires ss != []
    ensures Replay(node, up, t, ss) ==
      match Run(node, up, t, Idle, ss[0]) case Err(e) => Err(e) case Ok(u) => Replay(node, up, u, ss[1..])
  {
    hide Run;
  }

  lemma {:induction false} SelectIs(items: seq<Json>, ident: string, tok: string, i: nat)
    requires i <= |items| && (i < |items| ==> Named(items[i], ident, tok)) && forall j :: 0 <= j < i ==> !Named(items[j], ident, tok)
    ensures Select(items, ident, tok) == i
  {
  }

  lemma ElementKeepsPlace(items: seq<Json>, ident: string, tok: string, i: nat, m: map<string, Json>)
    requires i < |items| && Select(items, ident, tok) == i
    requires ident in m && m[ident] == items[i].fields[ident]
    ensures Select(items[i := Obj(m)], ident, tok) == i
  {
    var r := items[i := Obj(m)];
    assert Named(r[i], ident, tok);
    assert forall j :: 0 <= j < i ==> r[j] == items[j];
    SelectIs(r, ident, tok, i);
  }

  // ---------- rebuilding ----------

  function Restrict(m: map<string, Json>, keys: set<string>): map<string, Json> {
    map k | k in m && k in keys :: m[k]
  }

  function KeysOf(kids: seq<Node>): set<string> {
    set c | c in kids :: KeyOf(c)
  }

  /** Replaying an object's statements on a tree without its keys adds the object. */
  lemma {:induction false} Rebuild(node: Node, up: seq<Node>, base: map<string, Json>, m: map<string, Json>)
    requires WellFormed(node) && Built(node, m, true) && base.Keys !! Owned(node)
    ensures Replay(node, up, base, Lines(node, m)) == Ok(base + Restrict(m, Owned(node)))
    decreases Obj(m), 3, 0
  {
    var kids := KeywordsOf(node.children);
    KeywordsFacts(node.children);
    assert KeysOf(kids) == Owned(node);
    RebuildKids(node, up, base, kids, m);
  }

  lemma {:induction false} RebuildKids(node: Node, up: seq<Node>, base: map<string, Json>, kids: seq<Node>, m: map<string, Json>)
    requires WellFormed(node) && Built(node, m, true) && base.Keys !! Owned(node)
    requires Distinct(kids) && forall i :: 0 <= i < |kids| ==> IsKeywordOf(node, kids[i])
    ensures Replay(node, up, base, KidsLines(kids, m)) == Ok(base + Restrict(m, KeysOf(kids)))
    decreases Obj(m), 2, |kids|
  {
    if kids == [] {
      assert base + Restrict(m, KeysOf(kids)) == base;
    } else {
      var init, c := kids[..|kids| - 1], kids[|kids| - 1];
      RebuildKids(node, up, base, init, m);
      LastKey(node, kids);
      DirectChild(node, c);
      var cur := base + Restrict(m, KeysOf(init));
      RestrictMore(base, m, KeysOf(init), KeyOf(c));
      RebuildKid(node, up, cur, c, m);
      hide *;
      ReplayConcat(node, up, base, KidsLines(init, m), KidLines(c, m));
      LastLines(kids, m);
    }
  }

  lemma {:induction false} LastLines(kids: seq<Node>, m: map<string, Json>)
    requires kids != []
    ensures KidsLines(kids, m) == KidsLines(kids[..|kids| - 1], m) + KidLines(kids[|kids| - 1], m)
  {
  }

  lemma RestrictMore(base: map<string, Json>, m: map<string, Json>, keys: set<string>, key: string)
    requires key !in base && key !in keys
    ensures key !in base + Restrict(m, keys)
    ensures base + Restrict(m, keys + {key}) ==
      if key in m then (base + Restrict(m, keys))[key := m[key]] else base + Restrict(m, keys)
  {
  }

  lemma {:induction false} LastKey(node: Node, kids: seq<Node>)
    requires WellFormed(node) && kids != [] && Distinct(kids) && forall i :: 0 <= i < |kids| ==> IsKeywordOf(node, kids[i])
    ensures var init, c := kids[..|kids| - 1], kids[|kids| - 1];
      KeyOf(c) !in KeysOf(init) && KeysOf(kids) == KeysOf(init) + {KeyOf(c)}
  {
    hide WellFormed, KeyOf;
    var init, c := kids[..|kids| - 1], kids[|kids| - 1];
    forall i | 0 <= i < |init| ensures KeyOf(init[i]) != KeyOf(c) {
      assert kids[i] == init[i];
      KeysDiffer(node, init[i], c);
    }
    assert kids == init + [c];
  }

  lemma {:induction false} RebuildKid(node: Node, up: seq<Node>, cur: map<string, Json>, c: Node, m: map<string, Json>)
    requires WellFormed(node) && Built(node, m, true) && IsKeywordOf(node, c) && KeyOf(c) !in cur
    ensures Replay(node, up, cur, KidLines(c, m)) == Ok(if KeyOf(c) in m then cur[KeyOf(c) := m[KeyOf(c)]] else cur)
    decreases Obj(m), 1, 0
  {
    DirectChild(node, c);
    var key := KeyOf(c);
    if key in m {
      assert m[key] < Obj(m);
      assert BuiltAt(c, m[key], true);
      if c.name == "disable" {
        ReplayOne(node, up, cur, [c.name]);
        RunFlag(node, up, cur, c);
      } else if FirstParam(c).Some? {
        RebuildItems(node, up, cur, c, m[key].items);
      } else if SingleValue(c).Some? {
        var tok := FormatValue(key, m[key]);
        ReplayOne(node, up, cur, [c.name, tok]);
        RunLeaf(node, up, cur, c, tok);
        LeafReadsBack(key, c, m[key]);
      } else {
        RebuildObject(node, up, cur, c, m[key].fields);
      }
    }
  }

  lemma {:induction false} RebuildObject(node: Node, up: seq<Node>, cur: map<string, Json>, c: Node, sub: map<string, Json>)
    requires WellFormed(node) && IsKeywordOf(node, c) && IsObjectKeyword(c) && KeyOf(c) !in cur
    requires sub != map[] && sub.Keys <= Owned(c) && Built(c, sub, true)
    ensures Replay(node, up, cur, Under([c.name], Lines(c, sub))) == Ok(cur[KeyOf(c) := Obj(sub)])
    decreases Obj(sub), 4, 0
  {
    DirectChild(node, c);
    WholeObject(c, sub);
    LinesDirect(c, sub, false);
    NonEmptyLines(c, Lines(c, sub));
    assert FieldsAt(cur, KeyOf(c)) == map[];
    hide *;
    var ss := Lines(c, sub);
    Rebuild(c, [node] + up, map[], sub);
    ReplayNothing(c, [node] + up, map[]);
    assert ss != [];
    ReplayObject(node, up, cur, c, ss);
  }

  lemma WholeObject(c: Node, sub: map<string, Json>)
    requires IsObjectKeyword(c) && sub.Keys <= Owned(c)
    ensures var none: map<string, Json> := map[]; none.Keys !! Owned(c) && none + Restrict(sub, Owned(c)) == sub
  {
  }

  lemma NonEmptyLines(node: Node, ss: seq<Statement>)
    requires AllDirect(node, ss, false)
    ensures forall i :: 0 <= i < |ss| ==> ss[i] != []
  {
  }

  lemma {:induction false} RebuildItems(node: Node, up: seq<Node>, cur: map<string, Json>, c: Node, items: seq<Json>)
    requires WellFormed(node) && IsKeywordOf(node, c) && IsArrayKeyword(c) && KeyOf(c) !in cur
    requires BuiltItems(FirstParam(c).value, IdentityField(KeyOf(c)), items, true)
    ensures Replay(node, up, cur, Under([c.name], ItemsLines(FirstParam(c).value, IdentityField(KeyOf(c)), items))) ==
      Ok(if items == [] then cur else cur[KeyOf(c) := Arr(items)])
    decreases items, 0, 0
  {
    hide *;
    ArrayParam(node, c);
    var key, p, ident := KeyOf(c), FirstParam(c).value, IdentityField(KeyOf(c));
    if items == [] {
      NoItems(node, up, cur, c.name, p, ident);
    } else {
      var init, e := items[..|items| - 1], items[|items| - 1];
      InitBuilt(p, ident, items);
      RebuildItems(node, up, cur, c, init);
      var before := if init == [] then cur else cur[key := Arr(init)];
      ItemsOf(cur, key, init);
      RebuildElement(node, up, before, c, init, e);
      LastItem(p, ident, items);
      var first, mine := ItemsLines(p, ident, init), Under([FormatScalar(e.fields[ident])], [[]] + Lines(p, e.fields));
      UnderConcat([c.name], first, mine);
      ReplayConcat(node, up, cur, Under([c.name], first), Under([c.name], mine));
      assert init + [e] == items;
      assert before[key := Arr(items)] == cur[key := Arr(items)];
    }
  }

  lemma {:induction false} NoItems(node: Node, up: seq<Node>, cur: map<string, Json>, name: string, p: Node, ident: string)
    ensures Replay(node, up, cur, Under([name], ItemsLines(p, ident, []))) == Ok(cur)
  {
    assert Under([name], ItemsLines(p, ident, [])) == [];
  }

  lemma ItemsOf(cur: map<string, Json>, key: string, items: seq<Json>)
    requires key !in cur
    ensures ItemsAt(if items == [] then cur else cur[key := Arr(items)], key) == items
  {
  }

  lemma {:induction false} InitBuilt(p: Node, ident: string, items: seq<Json>)
    requires items != [] && BuiltItems(p, ident, items, true)
    ensures BuiltItems(p, ident, items[..|items| - 1], true) && BuiltElement(p, ident, items[|items| - 1], true)
    ensures items[|items| - 1].Obj? && ident in items[|items| - 1].fields
    ensures Select(items[..|items| - 1], ident, FormatScalar(items[|items| - 1].fields[ident])) == |items| - 1
  {
    assert items == items[..|items| - 1] + [items[|items| - 1]];
    NewName(p, items[..|items| - 1], ident, items[|items| - 1]);
  }

  lemma LastItem(p: Node, ident: string, items: seq<Json>)
    requires items != [] && items[|items| - 1].Obj? && ident in items[|items| - 1].fields
    ensures var init, e := items[..|items| - 1], items[|items| - 1];
      ItemsLines(p, ident, items) == ItemsLines(p, ident, init) + Under([FormatScalar(e.fields[ident])], [[]] + Lines(p, e.fields))
  {
  }

  /** The bare statement appends the element, the others fill it. */
  lemma {:induction false} RebuildElement(node: Node, up: seq<Node>, cur: map<string, Json>, c: Node, init: seq<Json>, e: Json)
    requires WellFormed(node) && IsKeywordOf(node, c) && IsArrayKeyword(c) && ItemsAt(cur, KeyOf(c)) == init
    requires BuiltElement(FirstParam(c).value, IdentityField(KeyOf(c)), e, true)
    requires Select(init, IdentityField(KeyOf(c)), FormatScalar(e.fields[IdentityField(KeyOf(c))])) == |init|
    ensures var p, ident := FirstParam(c).value, IdentityField(KeyOf(c));
      Replay(node, up, cur, Under([c.name], Under([FormatScalar(e.fields[ident])], [[]] + Lines(p, e.fields)))) ==
        Ok(cur[KeyOf(c) := Arr(init + [e])])
    decreases e, 5, 0
  {
    hide *;
    DirectChild(node, c);
    ArrayParam(node, c);
    var key, p, ident := KeyOf(c), FirstParam(c).value, IdentityField(KeyOf(c));
    ElementFacts(p, ident, e);
    var name := e.fields[ident];
    var id, lines, bare := FormatScalar(name), Lines(p, e.fields), map[ident := name];
    AppendBare(node, up, cur, c, id, name);
    Rebuild(p, [c, node] + up, bare, e.fields);
    LinesDirect(p, e.fields, false);
    var with := cur[key := Arr(init + [Obj(bare)])];
    FillLast(node, up, with, c, init, id, bare, lines, e.fields);
    assert with[key := Arr(init + [e])] == cur[key := Arr(init + [e])];
    BareFirst(c.name, id, lines);
    ReplayConcat(node, up, cur, [[c.name, id]], Under([c.name, id], lines));
    ReplayOne(node, up, cur, [c.name, id]);
  }

  lemma {:induction false} ArrayParam(node: Node, c: Node)
    requires WellFormed(node) && IsKeywordOf(node, c) && IsArrayKeyword(c)
    ensures FirstParam(c).Some? && WellFormed(FirstParam(c).value) && IdentityField(KeyOf(c)) !in Owned(FirstParam(c).value)
  {
    DirectChild(node, c);
  }

  lemma {:induction false} ElementFacts(p: Node, ident: string, e: Json)
    requires BuiltElement(p, ident, e, true) && ident !in Owned(p)
    ensures e.Obj? && ident in e.fields && Built(p, e.fields, true)
    ensures TypedScalar(FormatScalar(e.fields[ident])) == e.fields[ident]
    ensures var bare := map[ident := e.fields[ident]];
      && bare.Keys !! Owned(p) && bare + Restrict(e.fields, Owned(p)) == e.fields
      && Named(Obj(bare), ident, FormatScalar(e.fields[ident]))
  {
    NameReadsBack(e.fields[ident]);
  }

  lemma {:induction false} AppendBare(node: Node, up: seq<Node>, cur: map<string, Json>, c: Node, id: string, name: Json)
    requires WellFormed(node) && IsKeywordOf(node, c) && IsArrayKeyword(c) && TypedScalar(id) == name
    requires Select(ItemsAt(cur, KeyOf(c)), IdentityField(KeyOf(c)), id) == |ItemsAt(cur, KeyOf(c))|
    ensures var key, ident := KeyOf(c), IdentityField(KeyOf(c));
      Run(node, up, cur, Idle, [c.name, id]) == Ok(cur[key := Arr(ItemsAt(cur, key) + [Obj(map[ident := name])])])
  {
    hide Run, Select, TypedScalar, IdentityField, FindKind, JsonKey;
    DirectChild(node, c);
    RunElement(node, up, cur, c, id, []);
    assert [c.name, id] + [] == [c.name, id];
  }

  lemma {:induction false} FillLast(node: Node, up: seq<Node>, with: map<string, Json>, c: Node, init: seq<Json>, id: string,
                 bare: map<string, Json>, lines: seq<Statement>, full: map<string, Json>)
    requires WellFormed(node) && IsKeywordOf(node, c) && IsArrayKeyword(c)
    requires KeyOf(c) in with && with[KeyOf(c)] == Arr(init + [Obj(bare)])
    requires Select(init, IdentityField(KeyOf(c)), id) == |init| && Named(Obj(bare), IdentityField(KeyOf(c)), id)
    requires AllDirect(FirstParam(c).value, lines, false)
    requires Replay(FirstParam(c).value, [c, node] + up, bare, lines) == Ok(full)
    ensures Replay(node, up, with, Under([c.name, id], lines)) == Ok(with[KeyOf(c) := Arr(init + [Obj(full)])])
  {
    FoundLast(init, IdentityField(KeyOf(c)), id, bare);
    assert (init + [Obj(bare)])[|init|] == Obj(bare);
    ReplayElement(node, up, with, c, id, lines, |init|);
    hide *;
    assert (init + [Obj(bare)])[|init| := Obj(full)] == init + [Obj(full)];
  }

  lemma BareFirst(name: string, id: string, lines: seq<Statement>)
    ensures Under([name], Under([id], [[]] + lines)) == [[name, id]] + Under([name, id], lines)
  {
    UnderUnder([name], [id], [[]] + lines);
    assert [name] + [id] == [name, id] && [name, id] + [] == [name, id];
  }

  lemma {:induction false} NewName(p: Node, init: seq<Json>, ident: string, e: Json)
    requires BuiltItems(p, ident, init, true) && BuiltElement(p, ident, e, true) && DistinctNames(init + [e], ident)
    ensures Select(init, ident, FormatScalar(e.fields[ident])) == |init|
  {
    var id, items := FormatScalar(e.fields[ident]), init + [e];
    forall j | 0 <= j < |init| ensures !Named(init[j], ident, id) {
      assert BuiltElement(p, ident, init[j], true);
      assert items[j] == init[j] && items[|init|] == e;
      assert !Named(e, ident, FormatScalar(items[j].fields[ident]));
    }
    SelectIs(init, ident, id, |init|);
  }

  lemma {:induction false} FoundLast(init: seq<Json>, ident: string, id: string, bare: map<string, Json>)
    requires Select(init, ident, id) == |init| && Named(Obj(bare), ident, id)
    ensures Select(init + [Obj(bare)], ident, id) == |init|
  {
    var items := init + [Obj(bare)];
    assert forall j :: 0 <= j < |init| ==> items[j] == init[j];
    SelectIs(items, ident, id, |init|);
  }

  // ---------- the theorems ----------

  /** What direct statements build on a built tree is built. */
  lemma {:induction false} ReplayKeepsBuilt(root: Node, t: map<string, Json>, ss: seq<Statement>, strict: bool)
    requires WellFormed(root) && AllDirect(root, ss, strict)
    requires Built(root, t, strict) && t.Keys <= Owned(root) && Replay(root, [], t, ss).Ok?
    ensures var r := Replay(root, [], t, ss).value; Built(root, r, strict) && r.Keys <= Owned(root)
    decreases |ss|
  {
    if ss != [] {
      RunKeepsBuilt(root, [], t, ss[0], strict);
      ReplayKeepsBuilt(root, Run(root, [], t, Idle, ss[0]).value, ss[1..], strict);
    }
  }

  /** Distinctness aside, the identities of a built tree are plain, so its statements are canonical. */
  lemma {:induction false} RoundTripBuilds(root: Node, m: map<string, Json>)
    requires WellFormed(root) && Replay(root, [], map[], Lines(root, m)) == Ok(m)
    ensures Built(root, m, true) && m.Keys <= Owned(root)
  {
    LinesDirect(root, m, false);
    ReplayKeepsBuilt(root, map[], Lines(root, m), false);
    LinesDirect(root, m, true);
    ReplayKeepsBuilt(root, map[], Lines(root, m), true);
  }

  /**
    A tree comes back from its printed statements exactly if it holds nothing outside the
    command tree, no empty containers, only values that keep their type, no secrets, and element
    names that differ.
   */
  lemma {:induction false} RoundTrip(root: Node, m: map<string, Json>)
    requires WellFormed(root)
    ensures Replay(root, [], map[], Lines(root, m)) == Ok(m) <==> Built(root, m, true) && m.Keys <= Owned(root)
  {
    if Built(root, m, true) && m.Keys <= Owned(root) {
      Rebuild(root, [], map[], m);
      assert map[] + Restrict(m, Owned(root)) == m;
    }
    if Replay(root, [], map[], Lines(root, m)) == Ok(m) {
      RoundTripBuilds(root, m);
    }
  }

  /** Whatever canonical statements built, its printed statements rebuild. */
  lemma {:induction false} StatementsRebuild(root: Node, ss: seq<Statement>)
    requires WellFormed(root) && AllDirect(root, ss, true) && Replay(root, [], map[], ss).Ok?
    ensures var m := Replay(root, [], map[], ss).value; Replay(root, [], map[], Lines(root, m)) == Ok(m)
  {
    ReplayKeepsBuilt(root, map[], ss, true);
    RoundTrip(root, Replay(root, [], map[], ss).value);
  }

  // ---------- the statements as text ----------

  /** The lines of `display set`, split again and without their leading `set`. */
  function Reread(statements: seq<Statement>): (r: seq<Statement>)
    ensures |r| == |statements|
  {
    seq(|statements|, i requires 0 <= i < |statements| =>
      var toks := Quoting.Fields(Quoting.Joined(["set"] + statements[i]));
      if toks == [] then [] else toks[1..])
  }

  /** The round trip holds through the printed text as well, with any characters in names and values. */
  lemma {:induction false} TextRoundTrip(root: Node, m: map<string, Json>)
    requires WellFormed(root)
    ensures Replay(root, [], map[], Reread(Lines(root, m))) == Ok(m) <==> Built(root, m, true) && m.Keys <= Owned(root)
  {
    var lines := Lines(root, m);
    forall i | 0 <= i < |lines| ensures Reread(lines)[i] == lines[i] {
      Quoting.SplitOfJoin(lines[i]);
      assert (["set"] + lines[i])[1..] == lines[i];
    }
    assert Reread(lines) == lines;
    RoundTrip(root, m);
  }

  // ---------- statements that do not follow the tree ----------

  /** After a value, keywords of the same level may follow: the same as separate statements. */
  lemma {:induction false} SiblingAfterValue(node: Node, up: seq<Node>, cur: map<string, Json>, c: Node, tok: string, s: Statement)
    requires WellFormed(node) && IsKeywordOf(node, c) && IsLeafKeyword(c) && s != []
    ensures Run(node, up, cur, Idle, [c.name, tok] + s) == Replay(node, up, cur, [[c.name, tok], s])
  {
    DirectChild(node, c);
    RunLeaf(node, up, cur, c, tok);
    AfterValue(node, up, cur, c, tok, s);
    var v := LeafValue(KeyOf(c), c, tok);
    hide *;
    ReplayFirst(node, up, cur, [[c.name, tok], s]);
    assert [[c.name, tok], s][1..] == [s];
    if v.Some? {
      var next := cur[KeyOf(c) := v.value];
      BackAtLevel(node, up, next, c, s);
      ReplayOne(node, up, next, s);
    }
  }

  /** A value leaf with more tokens to come: the value is set and the rest goes on at the leaf. */
  lemma {:induction false} AfterValue(node: Node, up: seq<Node>, cur: map<string, Json>, c: Node, tok: string, s: Statement)
    requires FindKeyword(node.children, c.name) == Some(c) && IsLeafKeyword(c) && s != []
    ensures Run(node, up, cur, Idle, [c.name, tok] + s) ==
      match LeafValue(KeyOf(c), c, tok)
      case None => Err(BadValue(tok))
      case Some(v) => Run(c, [node] + up, cur[KeyOf(c) := v], Idle, s)
  {
    hide LeafValue, JsonKey, FindKind;
    var toks := [c.name, tok] + s;
    assert toks[1..] == [tok] + s && ([tok] + s)[1..] == s;
    assert Resolve(node, up, c.name) == Some((c, [node] + up));
  }

  /** A leaf has no keywords of its own, so the next one is looked up where the leaf stands. */
  lemma {:induction false} BackAtLevel(node: Node, up: seq<Node>, cur: map<string, Json>, c: Node, s: Statement)
    requires SingleValue(c).Some? && |c.children| == 1 && s != []
    ensures Run(c, [node] + up, cur, Idle, s) == Run(node, up, cur, Idle, s)
  {
    hide LeafValue, JsonKey, Select, TypedScalar, IdentityField;
    assert FindKeyword(c.children, s[0]).None?;
    assert ([node] + up)[0] == node && ([node] + up)[1..] == up;
    assert Resolve(c, [node] + up, s[0]) == Resolve(node, up, s[0]);
    hide FindKind, FindKeyword, Resolve;
  }
}
