/**
  What a set statement does to the configuration, with the types and keys spelled out
  (internal/api/cliexec.go:36-60, 1432-1739, 1860-1931): which value a leaf gets, when a statement
  is accepted, that it takes effect where it points, and that it changes nothing else.
 */
module StatementEffects {
  import opened Common
  import opened Decimal
  import opened JsonTree
  import opened Schema
  import opened Statements
  import opened StatementFacts
  import opened StatementRoundTrip
  import opened StatementNames
  import CoreList
  import Text

  // ---------- the tables ----------

  /** The field that tells the elements of an array apart. */
  lemma IdentityFields(key: string)
    ensures IdentityField(key) ==
      if key == "ports" || key == "rules" then "seq"
      else if key == "routes" then "prefix"
      else if key == "hugepages" then "page_size"
      else if key == "ntp" then "server"
      else if key == "numa" then "node"
      else if key == "l3_interfaces" || key == "per_dev" then "interface"
      else "name"
  {
  }

  predicate IsCoreKey(key: string) {
    key == "isolated_cores" || key == "cores"
  }

  predicate IsSwitchKey(key: string) {
    key == "nmi_watchdog" || key == "low_latency"
  }

  predicate IsVlanKey(key: string) {
    key == "vlan" || key == "native"
  }

  predicate IsPlainKey(key: string) {
    !IsCoreKey(key) && !IsSwitchKey(key) && !IsVlanKey(key)
  }

  predicate IsSecretKey(key: string) {
    || key == "password" || key == "password_hash" || key == "token"
    || key == "secret" || key == "private_key" || key == "psk"
  }

  lemma KeyTables(key: string)
    ensures key in CORE_KEYS <==> IsCoreKey(key)
    ensures key in BOOL_KEYS <==> IsSwitchKey(key)
    ensures key in INT_KEYS <==> IsVlanKey(key)
    ensures key in SENSITIVE_LEAVES <==> IsSecretKey(key)
  {
  }

  // ---------- the value of a leaf ----------

  /** Digits are a number for the leaves of numeric, boolean or no type, and stay text for all others. */
  lemma {:induction false} NumberOnLeaf(node: Node, up: seq<Node>, cur: map<string, Json>, c: Node, tok: string, n: int)
    requires FindKeyword(node.children, c.name) == Some(c) && IsLeafKeyword(c) && IsPlainKey(KeyOf(c))
    requires Atoi(tok) == Some(n)
    ensures var t := SingleValue(c).value.paramType;
      var numeric := t == "" || t == "uint" || t == "int" || t == "number" || t == "bool";
      Run(node, up, cur, Idle, [c.name, tok]) == Ok(cur[KeyOf(c) := if numeric then Num(n) else Str(tok)])
  {
    KeyTables(KeyOf(c));
    NotAWord(tok);
    RunLeaf(node, up, cur, c, tok);
    hide Run, Atoi, FindKeyword, FindKind, JsonKey;
  }

  lemma NotAWord(tok: string)
    requires Atoi(tok).Some?
    ensures tok != "true" && tok != "false"
  {
    assert !IsDigit("true"[0]) && !IsDigit("false"[0]);
  }

  /** Other tokens are text, except the two words for truth values, whatever the type of the leaf. */
  lemma {:induction false} WordOnLeaf(node: Node, up: seq<Node>, cur: map<string, Json>, c: Node, tok: string)
    requires FindKeyword(node.children, c.name) == Some(c) && IsLeafKeyword(c) && IsPlainKey(KeyOf(c))
    requires Atoi(tok).None?
    ensures Run(node, up, cur, Idle, [c.name, tok]) ==
      Ok(cur[KeyOf(c) := if tok == "true" then Bool(true) else if tok == "false" then Bool(false) else Str(tok)])
  {
    KeyTables(KeyOf(c));
    RunLeaf(node, up, cur, c, tok);
    hide Run, Atoi, FindKeyword, FindKind, JsonKey;
  }

  /** Core lists are expanded, two leaves are switches and two are VLAN numbers; what does not fit is refused. */
  lemma {:induction false} SpecialLeaf(node: Node, up: seq<Node>, cur: map<string, Json>, c: Node, tok: string)
    requires FindKeyword(node.children, c.name) == Some(c) && IsLeafKeyword(c) && !IsPlainKey(KeyOf(c))
    ensures Run(node, up, cur, Idle, [c.name, tok]) ==
      if IsCoreKey(KeyOf(c)) then
        match CoreList.Expanded(tok)
        case Ok(xs) => Ok(cur[KeyOf(c) := Arr(seq(|xs|, i requires 0 <= i < |xs| => Num(xs[i])))])
        case Err(_) => Err(BadValue(tok))
      else if IsSwitchKey(KeyOf(c)) then
        if tok == "true" then Ok(cur[KeyOf(c) := Bool(true)])
        else if tok == "false" then Ok(cur[KeyOf(c) := Bool(false)])
        else Err(BadValue(tok))
      else if Atoi(tok).Some? then Ok(cur[KeyOf(c) := Num(Atoi(tok).value)])
      else Err(BadValue(tok))
  {
    KeyTables(KeyOf(c));
    RunLeaf(node, up, cur, c, tok);
    hide Run, Atoi, FindKeyword, FindKind, JsonKey, CoreList.Expanded;
    if IsCoreKey(KeyOf(c)) && CoreList.Expanded(tok).Ok? {
      var xs := CoreList.Expanded(tok).value;
      assert CoreItems(xs) == seq(|xs|, i requires 0 <= i < |xs| => Num(xs[i]));
    }
  }

  // ---------- when a statement is accepted ----------

  /** The value at the end of the statement, if there is one, suits its leaf. */
  predicate ValueSuits(node: Node, s: Statement)
    requires Direct(node, s, false)
    decreases |s|
  {
    var c := FindKeyword(node.children, s[0]).value;
    if IsArrayKeyword(c) then |s| > 2 ==> ValueSuits(FirstParam(c).value, s[2..])
    else if IsLeafKeyword(c) then
      && (IsCoreKey(KeyOf(c)) ==> CoreList.Expanded(s[1]).Ok?)
      && (IsSwitchKey(KeyOf(c)) ==> s[1] == "true" || s[1] == "false")
      && (IsVlanKey(KeyOf(c)) ==> Atoi(s[1]).Some?)
    else IsObjectKeyword(c) ==> ValueSuits(c, s[1..])
  }

  /** A statement that follows the command tree fails exactly on a value that does not suit, and names it. */
  lemma {:induction false} AcceptedExactly(node: Node, up: seq<Node>, cur: map<string, Json>, s: Statement)
    requires Direct(node, s, false)
    ensures var r := Run(node, up, cur, Idle, s);
      if ValueSuits(node, s) then r.Ok? else r == Err(BadValue(s[|s| - 1]))
    decreases |s|
  {
    hide Run, Atoi, FindKind, JsonKey, CoreList.Expanded, Select, TypedScalar, IdentityField, WithElement;
    var c := FindKeyword(node.children, s[0]).value;
    if c.name == "disable" {
      assert s == [c.name];
      RunFlag(node, up, cur, c);
    } else if FirstParam(c).Some? {
      var key := KeyOf(c);
      var items, i := WithElement(ItemsAt(cur, key), IdentityField(key), s[1]), Select(ItemsAt(cur, key), IdentityField(key), s[1]);
      assert s == [c.name, s[1]] + s[2..];
      RunElement(node, up, cur, c, s[1], s[2..]);
      if |s| > 2 {
        AcceptedExactly(FirstParam(c).value, [c, node] + up, items[i].fields, s[2..]);
      }
    } else if SingleValue(c).Some? {
      assert s == [c.name, s[1]];
      LeafAccepted(node, up, cur, c, s[1]);
    } else {
      assert s == [c.name] + s[1..];
      RunObject(node, up, cur, c, s[1..]);
      AcceptedExactly(c, [node] + up, FieldsAt(cur, KeyOf(c)), s[1..]);
    }
  }

  lemma {:induction false} LeafAccepted(node: Node, up: seq<Node>, cur: map<string, Json>, c: Node, tok: string)
    requires FindKeyword(node.children, c.name) == Some(c) && IsLeafKeyword(c)
    ensures var r := Run(node, up, cur, Idle, [c.name, tok]); var key := KeyOf(c);
      if (IsCoreKey(key) ==> CoreList.Expanded(tok).Ok?) && (IsSwitchKey(key) ==> tok == "true" || tok == "false")
         && (IsVlanKey(key) ==> Atoi(tok).Some?)
      then r.Ok? else r == Err(BadValue(tok))
  {
    if IsPlainKey(KeyOf(c)) {
      if Atoi(tok).Some? {
        NumberOnLeaf(node, up, cur, c, tok, Atoi(tok).value);
      } else {
        WordOnLeaf(node, up, cur, c, tok);
      }
    } else {
      SpecialLeaf(node, up, cur, c, tok);
    }
    hide Run, Atoi, FindKeyword, FindKind, JsonKey, CoreList.Expanded;
  }

  /** An unknown keyword at the top is named in the error. */
  lemma {:induction false} UnknownAtTop(root: Node, cur: map<string, Json>, s: Statement)
    requires s != [] && FindKeyword(root.children, s[0]).None?
    ensures Run(root, [], cur, Idle, s) == Err(UnknownStatement(s[0]))
  {
  }

  /** A keyword that needs more is no statement. */
  lemma {:induction false} UnfinishedStatement(node: Node, up: seq<Node>, cur: map<string, Json>, c: Node)
    requires FindKeyword(node.children, c.name) == Some(c) && c.name != "disable"
    ensures Run(node, up, cur, Idle, [c.name]) == Err(Incomplete)
  {
    assert Resolve(node, up, c.name) == Some((c, [node] + up));
    assert [c.name][1..] == [];
  }

  /** A keyword not found at its place is the one of the nearest ancestor that has it. */
  lemma {:induction false} NearestAncestor(node: Node, up: seq<Node>, tok: string, i: nat)
    requires i < |up| && FindKeyword(node.children, tok).None?
    requires forall j :: 0 <= j < i ==> FindKeyword(up[j].children, tok).None?
    requires FindKeyword(up[i].children, tok).Some?
    ensures Resolve(node, up, tok) == Some((FindKeyword(up[i].children, tok).value, up[i..]))
    decreases i
  {
    if i == 0 {
      assert [up[0]] + up[1..] == up[0..];
    } else {
      NearestAncestor(up[0], up[1..], tok, i - 1);
      assert up[1..][i - 1..] == up[i..];
    }
  }

  // ---------- where a statement points ----------

  /** What the configuration has where the statement points; the value at its end is not looked at. */
  function At(node: Node, m: map<string, Json>, s: Statement): Option<Json>
    requires Direct(node, s, false)
    decreases |s|
  {
    var c := FindKeyword(node.children, s[0]).value;
    var key := KeyOf(c);
    if IsArrayKeyword(c) then
      var items := ItemsAt(m, key);
      var i := Select(items, IdentityField(key), s[1]);
      if i == |items| then None
      else if |s| == 2 then Some(items[i])
      else At(FirstParam(c).value, items[i].fields, s[2..])
    else if IsObjectKeyword(c) then At(c, FieldsAt(m, key), s[1..])
    else if key in m then Some(m[key]) else None
  }

  /** What stands there after the statement: the value, `false` for disable, or the element of that name. */
  predicate Effective(node: Node, s: Statement, v: Json)
    requires Direct(node, s, false)
    decreases |s|
  {
    var c := FindKeyword(node.children, s[0]).value;
    if c.name == "disable" then v == Bool(false)
    else if FirstParam(c).Some? then
      if |s| == 2 then Named(v, IdentityField(KeyOf(c)), s[1]) else Effective(FirstParam(c).value, s[2..], v)
    else if SingleValue(c).Some? then LeafValue(KeyOf(c), c, s[1]) == Some(v)
    else Effective(c, s[1..], v)
  }

  /** An accepted statement takes effect where it points. */
  lemma {:induction false} TakesEffect(node: Node, up: seq<Node>, cur: map<string, Json>, s: Statement)
    requires WellFormed(node) && Direct(node, s, true) && Direct(node, s, false)
    requires Run(node, up, cur, Idle, s).Ok?
    ensures var v := At(node, Run(node, up, cur, Idle, s).value, s); v.Some? && Effective(node, s, v.value)
    decreases |s|, 1
  {
    hide Run, TypedScalar, IdentityField, Select, WithElement, LeafValue, FindKind, JsonKey;
    var c := FindKeyword(node.children, s[0]).value;
    DirectChild(node, c);
    if c.name == "disable" {
      assert s == [c.name];
      RunFlag(node, up, cur, c);
    } else if FirstParam(c).Some? {
      ElementEffect(node, up, cur, s, c);
    } else if SingleValue(c).Some? {
      assert s == [c.name, s[1]];
      RunLeaf(node, up, cur, c, s[1]);
    } else {
      assert s == [c.name] + s[1..];
      RunObject(node, up, cur, c, s[1..]);
      TakesEffect(c, [node] + up, FieldsAt(cur, KeyOf(c)), s[1..]);
    }
  }

  lemma {:induction false} ElementEffect(node: Node, up: seq<Node>, cur: map<string, Json>, s: Statement, c: Node)
    requires WellFormed(node) && Direct(node, s, true) && Direct(node, s, false)
    requires Run(node, up, cur, Idle, s).Ok? && FindKeyword(node.children, s[0]) == Some(c) && IsArrayKeyword(c)
    ensures var v := At(node, Run(node, up, cur, Idle, s).value, s); v.Some? && Effective(node, s, v.value)
    decreases |s|, 0
  {
    hide Run, TypedScalar, IdentityField, Select, WithElement, LeafValue, FindKind, JsonKey, FormatScalar, Named;
    DirectChild(node, c);
    assert s == [c.name, s[1]] + s[2..];
    RunElement(node, up, cur, c, s[1], s[2..]);
    var key, p := KeyOf(c), FirstParam(c).value;
    var ident, was := IdentityField(key), ItemsAt(cur, key);
    var i, items := Select(was, ident, s[1]), WithElement(was, ident, s[1]);
    NewNameFound(was, ident, s[1]);
    if |s| > 2 {
      TakesEffect(p, [c, node] + up, items[i].fields, s[2..]);
      RunFrame(p, [c, node] + up, items[i].fields, s[2..], ident);
      NamedHas(items[i], ident, s[1]);
      ElementKeepsPlace(items, ident, s[1], i, Run(p, [c, node] + up, items[i].fields, Idle, s[2..]).value);
    }
  }

  lemma NamedHas(e: Json, ident: string, tok: string)
    requires Named(e, ident, tok)
    ensures e.Obj? && ident in e.fields
  {
  }

  lemma {:induction false} NewNameFound(items: seq<Json>, ident: string, tok: string)
    requires FormatScalar(TypedScalar(tok)) == tok
    ensures Select(WithElement(items, ident, tok), ident, tok) == Select(items, ident, tok)
    ensures var e := WithElement(items, ident, tok)[Select(items, ident, tok)]; Named(e, ident, tok)
  {
    TypedScalarPlain(tok);
    var e := Obj(map[ident := TypedScalar(tok)]);
    assert Named(e, ident, tok);
    hide Named, TypedScalar, FormatScalar, PlainName;
    var r := WithElement(items, ident, tok);
    assert forall j :: 0 <= j < |items| ==> r[j] == items[j];
    SelectIs(r, ident, tok, Select(items, ident, tok));
  }

  // ---------- nothing else changes ----------

  /** The statements point to different places, and neither to one inside the other. */
  predicate Apart(node: Node, s: Statement, t: Statement)
    requires Direct(node, s, false) && Direct(node, t, false)
    decreases |s|
  {
    var c := FindKeyword(node.children, s[0]).value;
    if s[0] != t[0] then true
    else if IsArrayKeyword(c) then
      s[1] != t[1] || (|s| > 2 && |t| > 2 && Apart(FirstParam(c).value, s[2..], t[2..]))
    else IsObjectKeyword(c) && Apart(c, s[1..], t[1..])
  }

  /** Only the key of the first keyword is looked at. */
  lemma {:induction false} AtLooksAt(node: Node, m: map<string, Json>, n: map<string, Json>, t: Statement)
    requires Direct(node, t, false)
    requires var key := KeyOf(FindKeyword(node.children, t[0]).value);
      (key in m <==> key in n) && (key in m ==> m[key] == n[key])
    ensures At(node, m, t) == At(node, n, t)
  {
    hide Select, IdentityField;
  }

  /** In an object without the key of its first keyword a statement points to nothing. */
  lemma {:induction false} AtNothing(node: Node, m: map<string, Json>, t: Statement)
    requires Direct(node, t, false) && KeyOf(FindKeyword(node.children, t[0]).value) !in m
    ensures At(node, m, t) == None
    decreases |t|
  {
    hide IdentityField;
    var c := FindKeyword(node.children, t[0]).value;
    if IsObjectKeyword(c) {
      AtNothing(c, map[], t[1..]);
    }
  }

  lemma {:induction false} FirstKeyOwned(node: Node, t: Statement)
    requires Direct(node, t, false)
    ensures KeyOf(FindKeyword(node.children, t[0]).value) in Owned(node)
  {
  }

  /** Filling or adding one element leaves the elements of other names as they are. */
  lemma OtherElements(items: seq<Json>, ident: string, name: string, other: string, m: map<string, Json>)
    requires FormatScalar(TypedScalar(name)) == name && name != other
    requires var i, all := Select(items, ident, name), WithElement(items, ident, name);
      ident in m && ident in all[i].fields && m[ident] == all[i].fields[ident]
    ensures |items| <= |WithElement(items, ident, name)|
    ensures var i, all := Select(items, ident, name), WithElement(items, ident, name);
      var r, j := all[i := Obj(m)], Select(items, ident, other);
      if j < |items| then Select(r, ident, other) == j && r[j] == items[j] else Select(r, ident, other) == |r|
  {
    NewNameFound(items, ident, name);
    var i, all := Select(items, ident, name), WithElement(items, ident, name);
    var r, j := all[i := Obj(m)], Select(items, ident, other);
    assert Named(all[i], ident, name) && Named(r[i], ident, name);
    assert !Named(all[i], ident, other) && !Named(r[i], ident, other);
    hide Named, TypedScalar, FormatScalar;
    assert forall k :: 0 <= k < |items| && k != i ==> r[k] == items[k];
    if j < |items| {
      SelectIs(r, ident, other, j);
    } else {
      SelectIs(r, ident, other, |r|);
    }
  }

  /** Whatever stands elsewhere stands there as before. */
  lemma {:induction false} ChangesNothingElse(node: Node, up: seq<Node>, cur: map<string, Json>, s: Statement, t: Statement)
    requires WellFormed(node) && Direct(node, s, true) && Direct(node, s, false) && Direct(node, t, false)
    requires Apart(node, s, t) && Run(node, up, cur, Idle, s).Ok?
    ensures At(node, Run(node, up, cur, Idle, s).value, t) == At(node, cur, t)
    decreases |s|
  {
    hide Run, TypedScalar, IdentityField, Select, WithElement;
    var c := FindKeyword(node.children, s[0]).value;
    var d := FindKeyword(node.children, t[0]).value;
    DirectChild(node, c);
    RunShape(node, up, cur, s, c);
    if s[0] != t[0] {
      KeysDiffer(node, c, d);
      AtLooksAt(node, Run(node, up, cur, Idle, s).value, cur, t);
    } else if FirstParam(c).Some? {
      ElementElsewhere(node, up, cur, s, t, c);
    } else {
      assert s == [c.name] + s[1..];
      RunObject(node, up, cur, c, s[1..]);
      ChangesNothingElse(c, [node] + up, FieldsAt(cur, KeyOf(c)), s[1..], t[1..]);
    }
  }

  lemma {:induction false} ElementElsewhere(node: Node, up: seq<Node>, cur: map<string, Json>, s: Statement, t: Statement, c: Node)
    requires WellFormed(node) && Direct(node, s, true) && Direct(node, s, false) && Direct(node, t, false)
    requires Apart(node, s, t) && Run(node, up, cur, Idle, s).Ok?
    requires FindKeyword(node.children, s[0]) == Some(c) && IsArrayKeyword(c) && s[0] == t[0]
    ensures At(node, Run(node, up, cur, Idle, s).value, t) == At(node, cur, t)
    decreases |s|, 0
  {
    hide Run, TypedScalar, IdentityField, Select, WithElement;
    DirectChild(node, c);
    assert s == [c.name, s[1]] + s[2..];
    RunElement(node, up, cur, c, s[1], s[2..]);
    var key, p := KeyOf(c), FirstParam(c).value;
    var ident, was := IdentityField(key), ItemsAt(cur, key);
    var i, items := Select(was, ident, s[1]), WithElement(was, ident, s[1]);
    NewNameFound(was, ident, s[1]);
    var e := items[i].fields;
    if |s| > 2 {
      RunFrame(p, [c, node] + up, e, s[2..], ident);
    }
    var m := if |s| > 2 then Run(p, [c, node] + up, e, Idle, s[2..]).value else e;
    assert items[i := Obj(e)] == items;
    assert ItemsAt(Run(node, up, cur, Idle, s).value, key) == items[i := Obj(m)];
    if s[1] != t[1] {
      OtherElements(was, ident, s[1], t[1], m);
    } else {
      ElementKeepsPlace(items, ident, s[1], i, m);
      ChangesNothingElse(p, [c, node] + up, e, s[2..], t[2..]);
      if i == |was| {
        FirstKeyOwned(p, t[2..]);
        NewElementIs(was, ident, s[1]);
        AtNothing(p, e, t[2..]);
      } else {
        OldElementIs(was, ident, s[1]);
      }
    }
  }

  lemma {:induction false} NewElementIs(items: seq<Json>, ident: string, tok: string)
    requires Select(items, ident, tok) == |items|
    ensures WithElement(items, ident, tok)[|items|] == Obj(map[ident := TypedScalar(tok)])
  {
  }

  lemma {:induction false} OldElementIs(items: seq<Json>, ident: string, tok: string)
    requires Select(items, ident, tok) < |items|
    ensures WithElement(items, ident, tok) == items
  {
  }

  // ---------- secrets ----------

  /** The configurations differ at most in what the secret leaves hold. */
  ghost predicate SameButSecrets(node: Node, m: map<string, Json>, n: map<string, Json>)
    decreases Obj(m), 1
  {
    forall c :: c in node.children && c.kind == Keyword && !(IsLeafKeyword(c) && IsSecretKey(KeyOf(c))) ==>
      && (KeyOf(c) in m <==> KeyOf(c) in n)
      && (KeyOf(c) in m ==> assert m[KeyOf(c)] < Obj(m); SameAt(c, m[KeyOf(c)], n[KeyOf(c)]))
  }

  ghost predicate SameAt(c: Node, v: Json, w: Json)
    decreases v, 2
  {
    || v == w
    || (IsObjectKeyword(c) && v.Obj? && w.Obj? && SameButSecrets(c, v.fields, w.fields))
    || (IsArrayKeyword(c) && v.Arr? && w.Arr? && |v.items| == |w.items|
        && forall i :: 0 <= i < |v.items| ==> SameElement(FirstParam(c).value, IdentityField(KeyOf(c)), v.items[i], w.items[i]))
  }

  ghost predicate SameElement(p: Node, ident: string, v: Json, w: Json)
    decreases v, 3
  {
    || v == w
    || (v.Obj? && w.Obj? && ident in v.fields && ident in w.fields && v.fields[ident] == w.fields[ident]
        && SameButSecrets(p, v.fields, w.fields))
  }

  /** What is printed tells nothing about secrets. */
  lemma {:induction false} SecretsUnprinted(node: Node, m: map<string, Json>, n: map<string, Json>)
    requires WellFormed(node) && SameButSecrets(node, m, n)
    ensures Lines(node, m) == Lines(node, n)
    decreases Obj(m), 3, 0
  {
    KeywordsFacts(node.children);
    KidsUnprinted(node, KeywordsOf(node.children), m, n);
  }

  lemma {:induction false} KidsUnprinted(node: Node, kids: seq<Node>, m: map<string, Json>, n: map<string, Json>)
    requires WellFormed(node) && SameButSecrets(node, m, n) && forall c :: c in kids ==> IsKeywordOf(node, c)
    ensures KidsLines(kids, m) == KidsLines(kids, n)
    decreases Obj(m), 2, |kids|
  {
    if kids != [] {
      KidsUnprinted(node, kids[..|kids| - 1], m, n);
      KidUnprinted(node, kids[|kids| - 1], m, n);
    }
  }

  lemma {:induction false} KidUnprinted(node: Node, c: Node, m: map<string, Json>, n: map<string, Json>)
    requires WellFormed(node) && SameButSecrets(node, m, n) && IsKeywordOf(node, c)
    ensures KidLines(c, m) == KidLines(c, n)
    decreases Obj(m), 1, 0
  {
    DirectChild(node, c);
    KeyTables(KeyOf(c));
    var key := KeyOf(c);
    if !(IsLeafKeyword(c) && IsSecretKey(key)) && key in m && m[key] != n[key] {
      assert m[key] < Obj(m);
      if IsObjectKeyword(c) {
        SecretsUnprinted(c, m[key].fields, n[key].fields);
      } else {
        ItemsUnprinted(FirstParam(c).value, IdentityField(key), m[key].items, n[key].items);
      }
    }
  }

  lemma {:induction false} ItemsUnprinted(p: Node, ident: string, xs: seq<Json>, ys: seq<Json>)
    requires WellFormed(p) && |xs| == |ys| && forall i :: 0 <= i < |xs| ==> SameElement(p, ident, xs[i], ys[i])
    ensures ItemsLines(p, ident, xs) == ItemsLines(p, ident, ys)
    decreases xs, 0, 0
  {
    if xs != [] {
      var l := |xs| - 1;
      ItemsUnprinted(p, ident, xs[..l], ys[..l]);
      if xs[l] != ys[l] {
        SecretsUnprinted(p, xs[l].fields, ys[l].fields);
      }
    }
  }

  /** Every other leaf is printed. */
  lemma {:induction false} LeafPrinted(node: Node, m: map<string, Json>, c: Node)
    requires WellFormed(node) && IsKeywordOf(node, c) && IsLeafKeyword(c) && KeyOf(c) in m
    ensures [c.name, FormatValue(KeyOf(c), m[KeyOf(c)])] in Lines(node, m) <==> !IsSecretKey(KeyOf(c))
  {
    DirectChild(node, c);
    KeyTables(KeyOf(c));
    KeywordsFacts(node.children);
    var line := [c.name, FormatValue(KeyOf(c), m[KeyOf(c)])];
    if IsSecretKey(KeyOf(c)) {
      LinesDirect(node, m, false);
      DirectMember(node, Lines(node, m), line);
    } else {
      KidIsIn(KeywordsOf(node.children), c, m, line);
    }
  }

  lemma {:induction false} DirectMember(node: Node, ss: seq<Statement>, line: Statement)
    requires AllDirect(node, ss, false)
    ensures line in ss ==> Direct(node, line, false)
  {
  }

  lemma {:induction false} KidIsIn(kids: seq<Node>, c: Node, m: map<string, Json>, line: Statement)
    requires c in kids && line in KidLines(c, m)
    ensures line in KidsLines(kids, m)
    decreases |kids|
  {
    var l := |kids| - 1;
    if kids[l] != c {
      KidIsIn(kids[..l], c, m, line);
    }
  }

  // ---------- the text of a value ----------

  /** Truth values, numbers and texts are printed as they are, a core list core by core. */
  lemma PrintedAs(key: string, v: Json)
    ensures v.Bool? ==> FormatValue(key, v) == if v.b then "true" else "false"
    ensures v.Num? ==> FormatValue(key, v) == Itoa(v.n)
    ensures v.Str? ==> FormatValue(key, v) == v.s
    ensures v.Arr? && IsCoreKey(key) && (forall i :: 0 <= i < |v.items| ==> v.items[i].Num?) ==>
      FormatValue(key, v) == Text.Join(seq(|v.items|, i requires 0 <= i < |v.items| && v.items[i].Num? => Itoa(v.items[i].n)), ',')
  {
    KeyTables(key);
    if v.Arr? && IsCoreKey(key) && forall i :: 0 <= i < |v.items| ==> v.items[i].Num? {
      assert FormatItems(v.items) == seq(|v.items|, i requires 0 <= i < |v.items| && v.items[i].Num? => Itoa(v.items[i].n));
    }
  }

  // ---------- the flag in the middle ----------

  /** Only as the last word is `disable` the flag; before others it leads into an object of that name. */
  lemma {:induction false} DisableMidway(node: Node, up: seq<Node>, cur: map<string, Json>, c: Node, s: Statement)
    requires c.name == "disable" && FindKeyword(node.children, c.name) == Some(c)
    requires FirstParam(c).None? && SingleValue(c).None? && s != []
    ensures Run(node, up, cur, Idle, ["disable"] + s) ==
      match Run(c, [node] + up, FieldsAt(cur, "disable"), Idle, s)
      case Err(e) => Err(e)
      case Ok(m) => Ok(cur["disable" := Obj(m)])
  {
    DisableKey();
    hide JsonKey, FindKind;
    assert (["disable"] + s)[1..] == s;
    assert Resolve(node, up, c.name) == Some((c, [node] + up));
  }

  lemma DisableKey()
    ensures JsonKey("disable") == "disable"
  {
    JsonKeyAt("disable");
  }
}
