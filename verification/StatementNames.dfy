/**
  Instance names that are not written the way they print (internal/api/cliexec.go:1541-1585,
  1664-1676): for which set statements the configuration still comes back from its printed
  statements.
 */
module StatementNames {
  import opened Common
  import opened Decimal
  import opened JsonTree
  import opened Schema
  import opened Statements
  import opened StatementFacts
  import opened StatementRoundTrip

  // ---------- the condition ----------

  /** The name is found as it is written, or is not found as it would be printed. */
  predicate NameFits(items: seq<Json>, ident: string, id: string) {
    Select(items, ident, id) < |items| || Select(items, ident, FormatScalar(TypedScalar(id))) == |items|
  }

  /** Each instance name of the statement fits the array it goes into. */
  predicate NamesFit(node: Node, cur: map<string, Json>, s: Statement)
    requires Direct(node, s, false)
    decreases |s|
  {
    var c := FindKeyword(node.children, s[0]).value;
    var key := KeyOf(c);
    if IsArrayKeyword(c) then
      var items, ident := ItemsAt(cur, key), IdentityField(key);
      && NameFits(items, ident, s[1])
      && (|s| > 2 ==>
            NamesFit(FirstParam(c).value, WithElement(items, ident, s[1])[Select(items, ident, s[1])].fields, s[2..]))
    else IsObjectKeyword(c) ==> NamesFit(c, FieldsAt(cur, key), s[1..])
  }

  // ---------- trees with and without doubled names ----------

  lemma {:induction false} WeakBuilt(node: Node, m: map<string, Json>)
    requires Built(node, m, true)
    ensures Built(node, m, false)
    decreases Obj(m), 1
  {
    forall c | c in node.children && c.kind == Keyword && KeyOf(c) in m ensures BuiltAt(c, m[KeyOf(c)], false) {
      assert m[KeyOf(c)] < Obj(m);
      WeakBuiltAt(c, m[KeyOf(c)]);
    }
  }

  lemma {:induction false} WeakBuiltAt(c: Node, v: Json)
    requires BuiltAt(c, v, true)
    ensures BuiltAt(c, v, false)
    decreases v, 2
  {
    if IsArrayKeyword(c) {
      var p, ident := FirstParam(c).value, IdentityField(KeyOf(c));
      forall i | 0 <= i < |v.items| ensures BuiltElement(p, ident, v.items[i], false) {
        assert BuiltElement(p, ident, v.items[i], true);
        WeakBuilt(p, v.items[i].fields);
      }
    } else if IsObjectKeyword(c) {
      WeakBuilt(c, v.fields);
    }
  }

  /** The old value of a keyword, if it has one, holds no doubled names. */
  predicate WasBuilt(c: Node, cur: map<string, Json>) {
    KeyOf(c) in cur ==> BuiltAt(c, cur[KeyOf(c)], true)
  }

  /** One value is written: whether the tree is built changes only with that value. */
  lemma SetBuiltExactly(node: Node, m: map<string, Json>, c: Node, v: Json, fits: bool)
    requires WellFormed(node) && IsKeywordOf(node, c)
    requires BuiltAt(c, v, true) <==> WasBuilt(c, m) && fits
    ensures Built(node, m[KeyOf(c) := v], true) <==> Built(node, m, true) && fits
  {
    var r := m[KeyOf(c) := v];
    forall d | d in node.children && d.kind == Keyword && d != c
      ensures KeyOf(d) != KeyOf(c) && (KeyOf(d) in r <==> KeyOf(d) in m)
    {
      KeysDiffer(node, c, d);
    }
    hide BuiltAt, WellFormed, KeyOf;
  }

  lemma {:induction false} ArrayBuiltExactly(c: Node, items: seq<Json>)
    requires IsArrayKeyword(c)
    ensures BuiltAt(c, Arr(items), true) <==> items != [] && BuiltItems(FirstParam(c).value, IdentityField(KeyOf(c)), items, true)
  {
  }

  lemma {:induction false} OldItems(node: Node, cur: map<string, Json>, c: Node)
    requires IsKeywordOf(node, c) && IsArrayKeyword(c) && Built(node, cur, false)
    ensures var p, ident, items := FirstParam(c).value, IdentityField(KeyOf(c)), ItemsAt(cur, KeyOf(c));
      BuiltItems(p, ident, items, false) && (WasBuilt(c, cur) <==> BuiltItems(p, ident, items, true))
  {
    assert KeyOf(c) in cur ==> BuiltAt(c, cur[KeyOf(c)], false);
    hide DistinctNames, BuiltElement;
  }

  lemma {:induction false} OldObject(node: Node, cur: map<string, Json>, c: Node)
    requires IsKeywordOf(node, c) && IsObjectKeyword(c) && Built(node, cur, false)
    ensures var sub := FieldsAt(cur, KeyOf(c));
      Built(c, sub, false) && sub.Keys <= Owned(c) && (WasBuilt(c, cur) <==> Built(c, sub, true))
  {
    assert KeyOf(c) in cur ==> BuiltAt(c, cur[KeyOf(c)], false);
  }

  lemma {:induction false} OldLeaf(node: Node, cur: map<string, Json>, c: Node)
    requires IsKeywordOf(node, c) && !IsArrayKeyword(c) && !IsObjectKeyword(c) && Built(node, cur, false)
    ensures WasBuilt(c, cur)
  {
    assert KeyOf(c) in cur ==> BuiltAt(c, cur[KeyOf(c)], false);
  }

  /** A new element holds its name and nothing else, so it is built. */
  lemma DeclaredElement(p: Node, ident: string, items: seq<Json>, id: string, strict: bool)
    requires ident !in Owned(p)
    ensures var r := WithElement(items, ident, id);
      (forall i :: 0 <= i < |r| ==> BuiltElement(p, ident, r[i], strict)) <==>
      (forall i :: 0 <= i < |items| ==> BuiltElement(p, ident, items[i], strict))
  {
    TypedScalarPlain(id);
    var e := Obj(map[ident := TypedScalar(id)]);
    assert Built(p, e.fields, strict) by {
      forall c | c in p.children && c.kind == Keyword ensures KeyOf(c) in Owned(p) {
      }
    }
    assert BuiltElement(p, ident, e, strict);
    hide BuiltElement, Select, TypedScalar;
    var r := WithElement(items, ident, id);
    assert forall i :: 0 <= i < |items| ==> r[i] == items[i];
  }

  // ---------- what a statement does to a tree ----------

  /** After a statement no name is doubled exactly if none was before and its names fit. */
  lemma {:induction false} RunFits(node: Node, up: seq<Node>, cur: map<string, Json>, s: Statement)
    requires WellFormed(node) && Direct(node, s, false) && Built(node, cur, false)
    requires Run(node, up, cur, Idle, s).Ok?
    ensures Built(node, Run(node, up, cur, Idle, s).value, true) <==> Built(node, cur, true) && NamesFit(node, cur, s)
    decreases |s|, 1
  {
    var c := FindKeyword(node.children, s[0]).value;
    RunShape(node, up, cur, s, c);
    ValueFits(node, up, cur, s, c);
    hide *;
    SetBuiltExactly(node, cur, c, Run(node, up, cur, Idle, s).value[KeyOf(c)], NamesFit(node, cur, s));
  }

  lemma {:induction false} ValueFits(node: Node, up: seq<Node>, cur: map<string, Json>, s: Statement, c: Node)
    requires WellFormed(node) && Direct(node, s, false) && Built(node, cur, false)
    requires Run(node, up, cur, Idle, s).Ok? && FindKeyword(node.children, s[0]) == Some(c)
    ensures var r := Run(node, up, cur, Idle, s).value;
      KeyOf(c) in r && (BuiltAt(c, r[KeyOf(c)], true) <==> WasBuilt(c, cur) && NamesFit(node, cur, s))
    decreases |s|, 0
  {
    DirectChild(node, c);
    var key := KeyOf(c);
    if c.name == "disable" {
      assert s == [c.name];
      RunFlag(node, up, cur, c);
      OldLeaf(node, cur, c);
    } else if FirstParam(c).Some? {
      assert s == [c.name, s[1]] + s[2..];
      ItemsFit(node, up, cur, c, s[1], s[2..]);
    } else if SingleValue(c).Some? {
      assert s == [c.name, s[1]];
      RunLeaf(node, up, cur, c, s[1]);
      LeafIsPlain(key, c, s[1]);
      OldLeaf(node, cur, c);
    } else {
      assert s == [c.name] + s[1..];
      RunObject(node, up, cur, c, s[1..]);
      OldObject(node, cur, c);
      RunKeepsBuilt(c, [node] + up, FieldsAt(cur, key), s[1..], false);
      RunFits(c, [node] + up, FieldsAt(cur, key), s[1..]);
      hide WasBuilt;
    }
  }

  lemma {:induction false} ItemsFit(node: Node, up: seq<Node>, cur: map<string, Json>, c: Node, id: string, s: Statement)
    requires WellFormed(node) && IsKeywordOf(node, c) && IsArrayKeyword(c) && Built(node, cur, false)
    requires s != [] ==> Direct(FirstParam(c).value, s, false)
    requires Run(node, up, cur, Idle, [c.name, id] + s).Ok?
    ensures var r := Run(node, up, cur, Idle, [c.name, id] + s).value;
      var items, ident := ItemsAt(cur, KeyOf(c)), IdentityField(KeyOf(c));
      && KeyOf(c) in r
      && (BuiltAt(c, r[KeyOf(c)], true) <==>
          && WasBuilt(c, cur)
          && NameFits(items, ident, id)
          && (s != [] ==> NamesFit(FirstParam(c).value, WithElement(items, ident, id)[Select(items, ident, id)].fields, s)))
    decreases |s|, 3
  {
    DirectChild(node, c);
    OldItems(node, cur, c);
    hide *;
    RunElement(node, up, cur, c, id, s);
    ArrayParam(node, c);
    var key, p := KeyOf(c), FirstParam(c).value;
    var ident, was := IdentityField(key), ItemsAt(cur, key);
    var i, items := Select(was, ident, id), WithElement(was, ident, id);
    DeclareFits(p, ident, was, id);
    if s == [] {
      ArrayBuiltExactly(c, items);
    } else {
      var m := Run(p, [c, node] + up, items[i].fields, Idle, s).value;
      ElementFits(p, [c, node] + up, ident, items, i, s);
      ArrayBuiltExactly(c, items[i := Obj(m)]);
    }
  }

  lemma DeclareFits(p: Node, ident: string, was: seq<Json>, id: string)
    requires ident !in Owned(p) && BuiltItems(p, ident, was, false)
    ensures var items := WithElement(was, ident, id);
      items != [] && BuiltItems(p, ident, items, false) &&
      (BuiltItems(p, ident, items, true) <==> BuiltItems(p, ident, was, true) && NameFits(was, ident, id))
  {
    DistinctAfter(p, ident, was, id);
    DeclaredElement(p, ident, was, id, false);
    DeclaredElement(p, ident, was, id, true);
    hide DistinctNames, BuiltElement, WithElement, Select, FormatScalar, TypedScalar, Owned;
  }

  /** Filling an element leaves its name, so the names stay as distinct as they were. */
  lemma {:induction false} ElementFits(p: Node, up: seq<Node>, ident: string, items: seq<Json>, i: nat, s: Statement)
    requires WellFormed(p) && ident !in Owned(p) && i < |items|
    requires BuiltItems(p, ident, items, false)
    requires Direct(p, s, false) && items[i].Obj? && Run(p, up, items[i].fields, Idle, s).Ok?
    ensures var m := Run(p, up, items[i].fields, Idle, s).value;
      BuiltItems(p, ident, items[i := Obj(m)], true) <==> BuiltItems(p, ident, items, true) && NamesFit(p, items[i].fields, s)
    decreases |s|, 2
  {
    var e := items[i].fields;
    assert BuiltElement(p, ident, items[i], false);
    RunKeepsBuilt(p, up, e, s, false);
    RunFrame(p, up, e, s, ident);
    RunFits(p, up, e, s);
    var m := Run(p, up, e, Idle, s).value;
    var r := items[i := Obj(m)];
    assert BuiltElement(p, ident, Obj(m), true) <==> Built(p, m, true);
    assert BuiltElement(p, ident, items[i], true) <==> Built(p, e, true);
    SameNames(items, r, ident, i);
    hide BuiltElement, DistinctNames, Built, NamesFit, Run, Direct, WellFormed;
    assert r[i] == Obj(m) && forall j :: 0 <= j < |r| && j != i ==> r[j] == items[j];
  }

  lemma SameNames(items: seq<Json>, r: seq<Json>, ident: string, i: nat)
    requires i < |items| == |r| && forall j :: 0 <= j < |r| && j != i ==> r[j] == items[j]
    requires items[i].Obj? && r[i].Obj? && ident in items[i].fields && ident in r[i].fields
    requires r[i].fields[ident] == items[i].fields[ident]
    ensures DistinctNames(r, ident) <==> DistinctNames(items, ident)
  {
    assert forall j, tok :: 0 <= j < |r| ==> Named(r[j], ident, tok) == Named(items[j], ident, tok);
    hide Named;
  }

  // ---------- the theorems ----------

  /**
    A set statement on a tree that comes back gives a tree that comes back, exactly if each
    instance name in it is there as it is written or would not print as a name that is there.
   */
  lemma {:induction false} StatementRoundTrips(root: Node, cur: map<string, Json>, s: Statement)
    requires WellFormed(root) && Direct(root, s, false) && Run(root, [], cur, Idle, s).Ok?
    requires Replay(root, [], map[], Lines(root, cur)) == Ok(cur)
    ensures var r := Run(root, [], cur, Idle, s).value;
      Replay(root, [], map[], Lines(root, r)) == Ok(r) <==> NamesFit(root, cur, s)
  {
    hide *;
    RoundTrip(root, cur);
    WeakBuilt(root, cur);
    RunKeepsBuilt(root, [], cur, s, false);
    RunFits(root, [], cur, s);
    RoundTrip(root, Run(root, [], cur, Idle, s).value);
  }

  /** The names of each statement fit the tree it meets. */
  predicate AllFit(root: Node, t: map<string, Json>, ss: seq<Statement>)
    requires AllDirect(root, ss, false)
    decreases |ss|
  {
    ss != [] ==>
      && NamesFit(root, t, ss[0])
      && (Run(root, [], t, Idle, ss[0]).Ok? ==> AllFit(root, Run(root, [], t, Idle, ss[0]).value, ss[1..]))
  }

  lemma {:induction false} ReplayFits(root: Node, t: map<string, Json>, ss: seq<Statement>)
    requires WellFormed(root) && AllDirect(root, ss, false)
    requires Built(root, t, false) && Replay(root, [], t, ss).Ok?
    ensures Built(root, Replay(root, [], t, ss).value, true) <==> Built(root, t, true) && AllFit(root, t, ss)
    decreases |ss|
  {
    hide Run, Direct, NamesFit, Built, WellFormed;
    if ss != [] {
      RunFits(root, [], t, ss[0]);
      RunKeepsBuilt(root, [], t, ss[0], false);
      ReplayFits(root, Run(root, [], t, Idle, ss[0]).value, ss[1..]);
    }
  }

  /**
    Whatever set statements built comes back exactly if the names of each of them fitted when it
    was carried out: a doubled name is never undone by later ones.
   */
  lemma {:induction false} StatementsRoundTrip(root: Node, ss: seq<Statement>)
    requires WellFormed(root) && AllDirect(root, ss, false) && Replay(root, [], map[], ss).Ok?
    ensures var m := Replay(root, [], map[], ss).value;
      Replay(root, [], map[], Lines(root, m)) == Ok(m) <==> AllFit(root, map[], ss)
  {
    EmptyBuilt(root);
    hide *;
    WeakBuilt(root, map[]);
    ReplayKeepsBuilt(root, map[], ss, false);
    ReplayFits(root, map[], ss);
    RoundTrip(root, Replay(root, [], map[], ss).value);
  }

  lemma {:induction false} EmptyBuilt(root: Node)
    ensures Built(root, map[], true) && Replay(root, [], map[], []) == Ok(map[])
    ensures var none: map<string, Json> := map[]; none.Keys <= Owned(root)
  {
  }

  // ---------- a doubled name ----------

  /** An element of the outer array that holds nothing but the inner array. */
  function Holder(a: Node, c: Node, x: string, inner: seq<Json>): map<string, Json> {
    map[KeyOf(a) := Arr([Obj(map[IdentityField(KeyOf(a)) := TypedScalar(x), KeyOf(c) := Arr(inner)])])]
  }

  /** The inner array is one that the elements of the outer array have. */
  predicate Nested(root: Node, a: Node, c: Node) {
    && WellFormed(root) && IsKeywordOf(root, a) && IsArrayKeyword(a)
    && IsKeywordOf(FirstParam(a).value, c) && IsArrayKeyword(c)
  }

  /**
    Inside an element of an array, an instance name written in another way than it prints, such
    as 007, adds a second element of the same name, and the tree no longer comes back.
   */
  lemma {:induction false} OddNameDoubles(root: Node, a: Node, c: Node, x: string, n: int, id: string)
    requires Nested(root, a, c) && FormatScalar(TypedScalar(x)) == x
    requires IsInt64(n) && TypedScalar(id) == Num(n) && id != Itoa(n)
    ensures var e := Obj(map[IdentityField(KeyOf(c)) := Num(n)]);
      var r := Holder(a, c, x, [e, e]);
      && Replay(root, [], map[], [[a.name, x, c.name, Itoa(n)], [a.name, x, c.name, id]]) == Ok(r)
      && Replay(root, [], map[], Lines(root, r)) != Ok(r)
  {
    NumberText(n);
    hide *;
    var ident, e := IdentityField(KeyOf(c)), Obj(map[IdentityField(KeyOf(c)) := Num(n)]);
    FirstDeclared(root, a, c, x, Itoa(n));
    OneMore(ident, n, Itoa(n), id);
    NextDeclared(root, a, c, x, [e], id);
    Twice(root, [a.name, x, c.name, Itoa(n)], [a.name, x, c.name, id], Holder(a, c, x, [e]), Holder(a, c, x, [e, e]));
    var r := Holder(a, c, x, [e, e]);
    if Built(root, r, true) {
      InnerDistinct(root, a, c, x, [e, e]);
      Doubled(ident, n);
      assert false;
    }
    RoundTrip(root, r);
  }

  lemma {:induction false} Twice(root: Node, s1: Statement, s2: Statement, t1: map<string, Json>, t2: map<string, Json>)
    requires Run(root, [], map[], Idle, s1) == Ok(t1) && Run(root, [], t1, Idle, s2) == Ok(t2)
    ensures Replay(root, [], map[], [s1, s2]) == Ok(t2)
  {
    hide *;
    assert [s1] + [s2] == [s1, s2];
    ReplayConcat(root, [], map[], [s1], [s2]);
    ReplayOne(root, [], map[], s1);
    ReplayOne(root, [], t1, s2);
  }

  /** Declaring an inner element: both are there afterwards. */
  lemma {:induction false} InnerDeclared(root: Node, a: Node, c: Node, cur: map<string, Json>, x: string, id: string)
    requires Nested(root, a, c)
    ensures var key, ident := KeyOf(c), IdentityField(KeyOf(a));
      var was := ItemsAt(cur, KeyOf(a));
      var i, items := Select(was, ident, x), WithElement(was, ident, x);
      var inner := WithElement(ItemsAt(items[i].fields, key), IdentityField(key), id);
      Run(root, [], cur, Idle, [a.name, x, c.name, id]) ==
        Ok(cur[KeyOf(a) := Arr(items[i := Obj(items[i].fields[key := Arr(inner)])])])
  {
    DirectChild(root, a);
    DirectChild(FirstParam(a).value, c);
    var ident, was := IdentityField(KeyOf(a)), ItemsAt(cur, KeyOf(a));
    var i, items := Select(was, ident, x), WithElement(was, ident, x);
    var up := [a, root] + [];
    assert [a.name, x] + [c.name, id] == [a.name, x, c.name, id] && [c.name, id] + [] == [c.name, id];
    hide Run, Select, TypedScalar, IdentityField, WellFormed, Owned, KeyOf, WithElement, ItemsAt, FindKind, FindKeyword;
    RunElement(root, [], cur, a, x, [c.name, id]);
    RunElement(FirstParam(a).value, up, items[i].fields, c, id, []);
    assert up == [a, root];
  }

  lemma KeysApart(root: Node, a: Node, c: Node)
    requires Nested(root, a, c)
    ensures IdentityField(KeyOf(a)) != KeyOf(c)
  {
    DirectChild(root, a);
    DirectChild(FirstParam(a).value, c);
  }

  lemma {:induction false} FirstDeclared(root: Node, a: Node, c: Node, x: string, usual: string)
    requires Nested(root, a, c)
    ensures Run(root, [], map[], Idle, [a.name, x, c.name, usual]) ==
      Ok(Holder(a, c, x, [Obj(map[IdentityField(KeyOf(c)) := TypedScalar(usual)])]))
  {
    var key, ident := KeyOf(c), IdentityField(KeyOf(a));
    KeysApart(root, a, c);
    InnerDeclared(root, a, c, map[], x, usual);
    hide Run, TypedScalar, IdentityField, KeyOf, Nested;
    var bare := map[ident := TypedScalar(x)];
    var inner := [Obj(map[IdentityField(key) := TypedScalar(usual)])];
    assert ItemsAt(map[], KeyOf(a)) == [] && ItemsAt(bare, key) == [];
    assert [] + inner == inner && [] + [Obj(bare)] == [Obj(bare)];
    assert bare[key := Arr(inner)] == map[ident := TypedScalar(x), key := Arr(inner)];
    assert [Obj(bare)][0 := Obj(bare[key := Arr(inner)])] == [Obj(bare[key := Arr(inner)])];
  }

  lemma {:induction false} NextDeclared(root: Node, a: Node, c: Node, x: string, inner: seq<Json>, id: string)
    requires Nested(root, a, c) && FormatScalar(TypedScalar(x)) == x
    ensures Run(root, [], Holder(a, c, x, inner), Idle, [a.name, x, c.name, id]) ==
      Ok(Holder(a, c, x, WithElement(inner, IdentityField(KeyOf(c)), id)))
  {
    KeysApart(root, a, c);
    Filled(a, c, x, inner, WithElement(inner, IdentityField(KeyOf(c)), id));
    hide *;
    InnerDeclared(root, a, c, Holder(a, c, x, inner), x, id);
  }

  /** The holder's element is found by its name, and filling it gives the holder of the new array. */
  lemma {:induction false} Filled(a: Node, c: Node, x: string, inner: seq<Json>, more: seq<Json>)
    requires IdentityField(KeyOf(a)) != KeyOf(c) && FormatScalar(TypedScalar(x)) == x
    ensures var key, ident, cur := KeyOf(c), IdentityField(KeyOf(a)), Holder(a, c, x, inner);
      var was := ItemsAt(cur, KeyOf(a));
      && Select(was, ident, x) == 0 && WithElement(was, ident, x) == was && |was| == 1 && was[0].Obj?
      && ItemsAt(was[0].fields, key) == inner
      && cur[KeyOf(a) := Arr(was[0 := Obj(was[0].fields[key := Arr(more)])])] == Holder(a, c, x, more)
  {
    var key, ident := KeyOf(c), IdentityField(KeyOf(a));
    TypedScalarPlain(x);
    var e := map[ident := TypedScalar(x), key := Arr(inner)];
    assert Named(Obj(e), ident, x);
    hide TypedScalar, IdentityField, KeyOf, PlainName, FormatScalar, Named;
    SelectIs([Obj(e)], ident, x, 0);
    var filled := e[key := Arr(more)];
    assert filled == map[ident := TypedScalar(x), key := Arr(more)];
    assert [Obj(e)][0 := Obj(filled)] == [Obj(filled)];
  }

  lemma OneMore(ident: string, n: int, usual: string, id: string)
    requires usual == Itoa(n) && id != usual && TypedScalar(usual) == TypedScalar(id) == Num(n)
    ensures var e := Obj(map[ident := Num(n)]);
      e == Obj(map[ident := TypedScalar(usual)]) && WithElement([e], ident, id) == [e, e]
  {
    hide TypedScalar, Itoa;
    var e := Obj(map[ident := Num(n)]);
    SelectIs([e], ident, id, 1);
    assert [e] + [e] == [e, e];
  }

  lemma Doubled(ident: string, n: int)
    ensures var e := Obj(map[ident := Num(n)]); !DistinctNames([e, e], ident)
  {
    var e := Obj(map[ident := Num(n)]);
    var items := [e, e];
    assert Named(items[1], ident, FormatScalar(items[0].fields[ident]));
  }

  lemma {:induction false} InnerDistinct(root: Node, a: Node, c: Node, x: string, inner: seq<Json>)
    requires Nested(root, a, c) && Built(root, Holder(a, c, x, inner), true)
    ensures DistinctNames(inner, IdentityField(KeyOf(c)))
  {
    KeysApart(root, a, c);
    var p, r := FirstParam(a).value, Holder(a, c, x, inner);
    BuiltHere(root, r, a);
    var e := r[KeyOf(a)].items[0];
    assert BuiltElement(p, IdentityField(KeyOf(a)), e, true);
    BuiltHere(p, e.fields, c);
  }

  lemma {:induction false} BuiltHere(node: Node, m: map<string, Json>, c: Node)
    requires IsKeywordOf(node, c) && KeyOf(c) in m && Built(node, m, true)
    ensures BuiltAt(c, m[KeyOf(c)], true)
  {
  }

  /** jsonKeyOf changes dashes to underscores. */
  lemma {:induction false} JsonKeyAt(name: string)
    ensures |JsonKey(name)| == |name|
    ensures forall i :: 0 <= i < |name| ==> JsonKey(name)[i] == if name[i] == '-' then '_' else name[i]
  {
    if name != "" {
      JsonKeyAt(name[1..]);
    }
  }

  const SEQ_NODE: Node := Node(Param, "<seq>", "uint", [])
  const PORTS_NODE: Node := Node(Keyword, "ports", "", [SEQ_NODE])
  const SWITCH_NODE: Node := Node(Param, "<name>", "", [PORTS_NODE])
  const SWITCHES_NODE: Node := Node(Keyword, "virtual-switches", "", [SWITCH_NODE])
  const SWITCH_TREE: Node := Node(Keyword, "", "", [SWITCHES_NODE])

  lemma ExampleKeys()
    ensures JsonKey("virtual-switches") == "virtual_switches" && IdentityField("virtual_switches") == "name"
    ensures JsonKey("ports") == "ports" && IdentityField("ports") == "seq"
  {
    JsonKeyAt("virtual-switches");
    JsonKeyAt("ports");
    hide JsonKey;
    assert |"virtual_switches"| == 16;
  }

  lemma ExampleTree()
    ensures Nested(SWITCH_TREE, SWITCHES_NODE, PORTS_NODE)
    ensures KeyOf(SWITCHES_NODE) == "virtual_switches" && KeyOf(PORTS_NODE) == "ports"
  {
    ExampleKeys();
    hide JsonKey, IdentityField;
    assert "virtual-switches"[0] == 'v' && "ports"[0] == 'p' && "disable"[0] == 'd';
    assert WellFormed(SEQ_NODE) && WellFormed(SWITCH_NODE);
  }

  lemma ExampleNames()
    ensures TypedScalar("vs0") == Str("vs0") && Itoa(7) == "7" && TypedScalar("007") == Num(7)
  {
    assert !IsDigit("vs0"[0]);
    assert Atoi("vs0").None?;
    assert DigitsValue("0") == 0;
    assert "00"[..1] == "0" && "007"[..2] == "00";
    assert DigitsValue("00") == 0 && DigitsValue("007") == 7;
  }

  /** Port 007 of a switch that has port 7. */
  lemma PortExample()
    ensures var port := Obj(map["seq" := Num(7)]);
      var r := map["virtual_switches" := Arr([Obj(map["name" := Str("vs0"), "ports" := Arr([port, port])])])];
      && Replay(SWITCH_TREE, [], map[], [["virtual-switches", "vs0", "ports", "7"], ["virtual-switches", "vs0", "ports", "007"]]) == Ok(r)
      && Replay(SWITCH_TREE, [], map[], Lines(SWITCH_TREE, r)) != Ok(r)
  {
    ExampleKeys();
    ExampleTree();
    ExampleNames();
    hide Replay, Lines, TypedScalar, IdentityField, KeyOf, Nested, Itoa;
    OddNameDoubles(SWITCH_TREE, SWITCHES_NODE, PORTS_NODE, "vs0", 7, "007");
  }
}
