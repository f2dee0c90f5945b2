/**
  Printing a configuration as set statements and replaying them on an empty configuration
  (internal/api/setstmt.go, internal/api/cliexec.go): when it gives back the same tree.
 */
module StatementFacts {
  import opened Common
  import opened Decimal
  import opened Ordering
  import opened JsonTree
  import opened Schema
  import opened Statements
  import CoreList

  // ---------- scalars that keep their type ----------

  predicate IsInt64(n: int) {
    -INT64_MAX - 1 <= n <= INT64_MAX
  }

  predicate NotBoolWord(s: string) {
    s != "true" && s != "false"
  }

  /** A value an instance name reads back as: strings that look like numbers or booleans do not. */
  predicate PlainName(v: Json) {
    v.Bool? || (v.Num? && IsInt64(v.n)) || (v.Str? && NotBoolWord(v.s) && Atoi(v.s).None?)
  }

  /** A value a leaf reads back as; leaves of textual type take digits as text. */
  predicate PlainLeaf(key: string, c: Node, v: Json) {
    if key in CORE_KEYS then
      v.Arr? && v.items != [] && forall i :: 0 <= i < |v.items| ==> v.items[i].Num? && CoreList.IsCore(v.items[i].n)
    else if key in BOOL_KEYS then v.Bool?
    else if key in INT_KEYS then v.Num? && IsInt64(v.n)
    else if LeafType(c) in NUMERIC_TYPES then PlainName(v)
    else v.Bool? || (v.Str? && NotBoolWord(v.s))
  }

  lemma TypedScalarPlain(tok: string)
    ensures PlainName(TypedScalar(tok))
  {
  }

  lemma NumberText(n: int)
    requires IsInt64(n)
    ensures TypedScalar(Itoa(n)) == Num(n) && NotBoolWord(Itoa(n)) && Atoi(Itoa(n)) == Some(n)
  {
    CoreList.ItoaShape(n);
  }

  /** An identity reads back exactly if it is plain. */
  lemma NameReadsBack(v: Json)
    ensures TypedScalar(FormatScalar(v)) == v <==> PlainName(v)
  {
    TypedScalarPlain(FormatScalar(v));
    if v.Num? && IsInt64(v.n) {
      NumberText(v.n);
    }
  }

  lemma CoreItemsText(xs: seq<int>)
    ensures FormatItems(CoreItems(xs)) == CoreList.SpanTexts(CoreList.Singles(xs))
  {
  }

  /** A leaf reads back exactly if its value is plain for that leaf. */
  lemma LeafReadsBack(key: string, c: Node, v: Json)
    ensures LeafValue(key, c, FormatValue(key, v)) == Some(v) <==> PlainLeaf(key, c, v)
  {
    if PlainLeaf(key, c, v) {
      if key in CORE_KEYS {
        var xs := seq(|v.items|, i requires 0 <= i < |v.items| => v.items[i].n);
        assert CoreItems(xs) == v.items;
        CoreItemsText(xs);
        CoreList.ExpandListed(xs);
      } else if v.Num? {
        NumberText(v.n);
      }
    }
    if LeafValue(key, c, FormatValue(key, v)).Some? {
      LeafIsPlain(key, c, FormatValue(key, v));
    }
  }

  lemma LeafIsPlain(key: string, c: Node, tok: string)
    requires LeafValue(key, c, tok).Some?
    ensures PlainLeaf(key, c, LeafValue(key, c, tok).value)
  {
    if key in CORE_KEYS {
      CoreList.ExpandedAreCores(tok);
    }
  }

  // ---------- statements that follow the command tree ----------

  /**
    A statement that names every keyword in its place (so that none is looked up among the
    ancestors) and ends where a statement may end. With `canonical`, instance names are written
    the way they are printed.
   */
  predicate Direct(node: Node, s: Statement, canonical: bool)
    decreases |s|
  {
    && s != []
    && FindKeyword(node.children, s[0]).Some?
    && var c := FindKeyword(node.children, s[0]).value;
      if c.name == "disable" then |s| == 1
      else if FirstParam(c).Some? then
        && |s| >= 2
        && (canonical ==> FormatScalar(TypedScalar(s[1])) == s[1])
        && (|s| > 2 ==> Direct(FirstParam(c).value, s[2..], canonical))
      else if SingleValue(c).Some? then |s| == 2 && KeyOf(c) !in SENSITIVE_LEAVES
      else |s| >= 2 && Direct(c, s[1..], canonical)
  }

  predicate AllDirect(node: Node, ss: seq<Statement>, canonical: bool) {
    forall i :: 0 <= i < |ss| ==> Direct(node, ss[i], canonical)
  }

  predicate IsArrayKeyword(c: Node) {
    c.name != "disable" && FirstParam(c).Some?
  }

  predicate IsLeafKeyword(c: Node) {
    c.name != "disable" && FirstParam(c).None? && SingleValue(c).Some?
  }

  predicate IsObjectKeyword(c: Node) {
    c.name != "disable" && FirstParam(c).None? && SingleValue(c).None?
  }

  lemma {:induction false} RunFlag(node: Node, up: seq<Node>, cur: map<string, Json>, c: Node)
    requires FindKeyword(node.children, c.name) == Some(c) && c.name == "disable"
    ensures Run(node, up, cur, Idle, [c.name]) == Ok(cur[KeyOf(c) := Bool(false)])
  {
  }

  lemma {:induction false} RunLeaf(node: Node, up: seq<Node>, cur: map<string, Json>, c: Node, tok: string)
    requires FindKeyword(node.children, c.name) == Some(c) && IsLeafKeyword(c)
    ensures Run(node, up, cur, Idle, [c.name, tok]) ==
      match LeafValue(KeyOf(c), c, tok) case None => Err(BadValue(tok)) case Some(v) => Ok(cur[KeyOf(c) := v])
  {
    hide LeafValue;
    assert [c.name, tok][1..] == [tok];
    assert Resolve(node, up, c.name) == Some((c, [node] + up));
  }

  lemma {:induction false} RunObject(node: Node, up: seq<Node>, cur: map<string, Json>, c: Node, s: Statement)
    requires FindKeyword(node.children, c.name) == Some(c) && IsObjectKeyword(c) && s != []
    ensures Run(node, up, cur, Idle, [c.name] + s) ==
      match Run(c, [node] + up, FieldsAt(cur, KeyOf(c)), Idle, s)
      case Err(e) => Err(e)
      case Ok(m) => Ok(cur[KeyOf(c) := Obj(m)])
  {
    assert ([c.name] + s)[1..] == s;
    assert Resolve(node, up, c.name) == Some((c, [node] + up));
  }

  lemma {:induction false} RunElement(node: Node, up: seq<Node>, cur: map<string, Json>, c: Node, id: string, s: Statement)
    requires FindKeyword(node.children, c.name) == Some(c) && IsArrayKeyword(c)
    ensures var key, ident := KeyOf(c), IdentityField(KeyOf(c));
      var i, items := Select(ItemsAt(cur, key), ident, id), WithElement(ItemsAt(cur, key), ident, id);
      Run(node, up, cur, Idle, [c.name, id] + s) ==
        if s == [] then Ok(cur[key := Arr(items)])
        else
          match Run(FirstParam(c).value, [c, node] + up, items[i].fields, Idle, s)
          case Err(e) => Err(e)
          case Ok(m) => Ok(cur[key := Arr(items[i := Obj(m)])])
  {
    hide Select, IdentityField, TypedScalar, FindKind, FindKeyword, JsonKey;
    var key := KeyOf(c);
    var toks := [c.name, id] + s;
    assert toks[1..] == [id] + s && ([id] + s)[1..] == s;
    assert Resolve(node, up, c.name) == Some((c, [node] + up));
    assert [c] + ([node] + up) == [c, node] + up;
    var start := if key in cur then cur else cur[key := Arr([])];
    assert ItemsAt(start, key) == ItemsAt(cur, key);
    var items := WithElement(ItemsAt(cur, key), IdentityField(key), id);
    assert start[key := Arr(items)] == cur[key := Arr(items)];
    if s != [] {
      var i := Select(ItemsAt(cur, key), IdentityField(key), id);
      var r := Run(FirstParam(c).value, [c, node] + up, items[i].fields, Idle, s);
      if r.Ok? {
        assert start[key := Arr(items[i := Obj(r.value)])] == cur[key := Arr(items[i := Obj(r.value)])];
      }
    }
  }

  // ---------- the trees set statements build ----------

  predicate DistinctNames(items: seq<Json>, ident: string) {
    forall i, j :: 0 <= i < j < |items| && items[i].Obj? && ident in items[i].fields ==>
      !Named(items[j], ident, FormatScalar(items[i].fields[ident]))
  }

  /** Plain values, no empty containers; with `distinct`, element names that differ. */
  predicate Built(node: Node, m: map<string, Json>, distinct: bool)
    decreases Obj(m), 1
  {
    forall c :: c in node.children && c.kind == Keyword && KeyOf(c) in m ==>
      assert m[KeyOf(c)] < Obj(m);
      BuiltAt(c, m[KeyOf(c)], distinct)
  }

  predicate BuiltAt(c: Node, v: Json, distinct: bool)
    decreases v, 2
  {
    if c.name == "disable" then v == Bool(false)
    else if FirstParam(c).Some? then
      && v.Arr? && v.items != []
      && (distinct ==> DistinctNames(v.items, IdentityField(KeyOf(c))))
      && forall i :: 0 <= i < |v.items| ==> BuiltElement(FirstParam(c).value, IdentityField(KeyOf(c)), v.items[i], distinct)
    else if SingleValue(c).Some? then KeyOf(c) !in SENSITIVE_LEAVES && PlainLeaf(KeyOf(c), c, v)
    else v.Obj? && v.fields != map[] && v.fields.Keys <= Owned(c) && Built(c, v.fields, distinct)
  }

  predicate BuiltElement(p: Node, ident: string, e: Json, distinct: bool)
    decreases e, 3
  {
    && e.Obj? && ident in e.fields && PlainName(e.fields[ident])
    && e.fields.Keys <= Owned(p) + {ident}
    && Built(p, e.fields, distinct)
  }

  /** A statement touches no key but the one of its first keyword. */
  lemma {:induction false} RunFrame(node: Node, up: seq<Node>, cur: map<string, Json>, s: Statement, key: string)
    requires Direct(node, s, false) && Run(node, up, cur, Idle, s).Ok? && key !in Owned(node)
    ensures var r := Run(node, up, cur, Idle, s).value;
      (key in r <==> key in cur) && (key in cur ==> r[key] == cur[key])
  {
    var c := FindKeyword(node.children, s[0]).value;
    assert KeyOf(c) in Owned(node);
    RunShape(node, up, cur, s, c);
    hide *;
  }

  lemma {:induction false} RunShape(node: Node, up: seq<Node>, cur: map<string, Json>, s: Statement, c: Node)
    requires Direct(node, s, false) && Run(node, up, cur, Idle, s).Ok?
    requires FindKeyword(node.children, s[0]) == Some(c)
    ensures var r := Run(node, up, cur, Idle, s).value; KeyOf(c) in r && r == cur[KeyOf(c) := r[KeyOf(c)]]
  {
    hide LeafValue, Select, IdentityField, TypedScalar, FindKind, FindKeyword, JsonKey, WithElement;
    if c.name == "disable" {
      assert s == [c.name];
      RunFlag(node, up, cur, c);
    } else if FirstParam(c).Some? {
      assert s == [c.name, s[1]] + s[2..];
      RunElement(node, up, cur, c, s[1], s[2..]);
    } else if SingleValue(c).Some? {
      assert s == [c.name, s[1]];
      RunLeaf(node, up, cur, c, s[1]);
    } else {
      assert s == [c.name] + s[1..];
      RunObject(node, up, cur, c, s[1..]);
    }
  }

  lemma SetBuilt(node: Node, m: map<string, Json>, c: Node, v: Json, distinct: bool)
    requires WellFormed(node) && IsKeywordOf(node, c) && Built(node, m, distinct) && BuiltAt(c, v, distinct)
    ensures Built(node, m[KeyOf(c) := v], distinct)
  {
    forall d | d in node.children && d.kind == Keyword && d != c ensures KeyOf(d) != KeyOf(c) {
      KeysDiffer(node, c, d);
    }
  }

  /** Set statements keep the tree plain; canonical ones also keep element names distinct. */
  lemma {:induction false} RunKeepsBuilt(node: Node, up: seq<Node>, cur: map<string, Json>, s: Statement, strict: bool)
    requires WellFormed(node) && Direct(node, s, strict) && Built(node, cur, strict)
    requires Run(node, up, cur, Idle, s).Ok?
    ensures var r := Run(node, up, cur, Idle, s).value;
      Built(node, r, strict) && r != map[] && r.Keys <= cur.Keys + Owned(node)
    decreases |s|, 1
  {
    var c := FindKeyword(node.children, s[0]).value;
    DirectChild(node, c);
    WeakDirect(node, s, strict);
    RunShape(node, up, cur, s, c);
    var r := Run(node, up, cur, Idle, s).value;
    NewValueBuilt(node, up, cur, s, strict, c);
    hide *;
    SetBuilt(node, cur, c, r[KeyOf(c)], strict);
  }

  lemma {:induction false} WeakDirect(node: Node, s: Statement, strict: bool)
    requires Direct(node, s, strict)
    ensures Direct(node, s, false)
    decreases |s|
  {
    var c := FindKeyword(node.children, s[0]).value;
    if c.name != "disable" {
      if FirstParam(c).Some? {
        if |s| > 2 {
          WeakDirect(FirstParam(c).value, s[2..], strict);
        }
      } else if SingleValue(c).None? {
        WeakDirect(c, s[1..], strict);
      }
    }
  }

  lemma {:induction false} NewValueBuilt(node: Node, up: seq<Node>, cur: map<string, Json>, s: Statement, strict: bool, c: Node)
    requires WellFormed(node) && Direct(node, s, strict) && Built(node, cur, strict)
    requires Run(node, up, cur, Idle, s).Ok? && FindKeyword(node.children, s[0]) == Some(c)
    ensures var r := Run(node, up, cur, Idle, s).value; KeyOf(c) in r && BuiltAt(c, r[KeyOf(c)], strict)
    decreases |s|, 0
  {
    DirectChild(node, c);
    var key := KeyOf(c);
    if c.name == "disable" {
      assert s == [c.name];
      RunFlag(node, up, cur, c);
    } else if FirstParam(c).Some? {
      assert s == [c.name, s[1]] + s[2..];
      NewItemsBuilt(node, up, cur, c, s[1], s[2..], strict);
    } else if SingleValue(c).Some? {
      assert s == [c.name, s[1]];
      RunLeaf(node, up, cur, c, s[1]);
      LeafIsPlain(key, c, s[1]);
    } else {
      assert s == [c.name] + s[1..];
      RunObject(node, up, cur, c, s[1..]);
      RunKeepsBuilt(c, [node] + up, FieldsAt(cur, key), s[1..], strict);
    }
  }

  lemma {:induction false} NewItemsBuilt(node: Node, up: seq<Node>, cur: map<string, Json>, c: Node, id: string, s: Statement, strict: bool)
    requires WellFormed(node) && IsKeywordOf(node, c) && IsArrayKeyword(c) && Built(node, cur, strict)
    requires strict ==> FormatScalar(TypedScalar(id)) == id
    requires s != [] ==> Direct(FirstParam(c).value, s, strict)
    requires Run(node, up, cur, Idle, [c.name, id] + s).Ok?
    ensures var r := Run(node, up, cur, Idle, [c.name, id] + s).value; KeyOf(c) in r && BuiltAt(c, r[KeyOf(c)], strict)
    decreases |s|, 2
  {
    DirectChild(node, c);
    RunElement(node, up, cur, c, id, s);
    var key, p := KeyOf(c), FirstParam(c).value;
    var ident, was := IdentityField(key), ItemsAt(cur, key);
    var i, items := Select(was, ident, id), WithElement(was, ident, id);
    assert key in cur ==> BuiltAt(c, cur[key], strict);
    NewElementBuilt(p, ident, was, id, strict);
    if s != [] {
      RunKeepsBuilt(p, [c, node] + up, items[i].fields, s, strict);
      WeakDirect(p, s, strict);
      RunFrame(p, [c, node] + up, items[i].fields, s, ident);
      var m := Run(p, [c, node] + up, items[i].fields, Idle, s).value;
      ElementReplaced(p, ident, items, i, m, strict);
    }
  }

  predicate BuiltItems(p: Node, ident: string, items: seq<Json>, strict: bool) {
    && (strict ==> DistinctNames(items, ident))
    && forall i :: 0 <= i < |items| ==> BuiltElement(p, ident, items[i], strict)
  }

  lemma NewElementBuilt(p: Node, ident: string, items: seq<Json>, id: string, strict: bool)
    requires ident !in Owned(p) && BuiltItems(p, ident, items, strict)
    requires strict ==> FormatScalar(TypedScalar(id)) == id
    ensures BuiltItems(p, ident, WithElement(items, ident, id), strict)
  {
    TypedScalarPlain(id);
    var e := Obj(map[ident := TypedScalar(id)]);
    assert Built(p, e.fields, strict) by {
      forall c | c in p.children && c.kind == Keyword ensures KeyOf(c) in Owned(p) {
      }
    }
    assert BuiltElement(p, ident, e, strict);
    if strict && Select(items, ident, id) == |items| {
      var r := items + [e];
      forall i, j | 0 <= i < j < |r| ensures !Named(r[j], ident, FormatScalar(r[i].fields[ident])) {
        if j == |items| {
          assert BuiltElement(p, ident, items[i], strict);
          assert !Named(items[i], ident, id);
        }
      }
    }
  }

  /**
    Names are distinct afterwards exactly if they were before and the name is found as it is
    written, or is not found as it would be printed.
   */
  lemma {:induction false} DistinctAfter(p: Node, ident: string, items: seq<Json>, id: string)
    requires BuiltItems(p, ident, items, false)
    ensures DistinctNames(WithElement(items, ident, id), ident) <==>
      DistinctNames(items, ident) && (Select(items, ident, id) < |items| || Select(items, ident, FormatScalar(TypedScalar(id))) == |items|)
  {
    if Select(items, ident, id) == |items| {
      var printed, r := FormatScalar(TypedScalar(id)), WithElement(items, ident, id);
      TypedScalarPlain(id);
      hide TypedScalar, PlainName;
      assert r == items + [Obj(map[ident := TypedScalar(id)])] && Named(r[|items|], ident, printed);
      assert forall i :: 0 <= i < |items| ==> r[i] == items[i];
      forall i | 0 <= i < |items|
        ensures Named(r[|items|], ident, FormatScalar(r[i].fields[ident])) <==> Named(items[i], ident, printed)
      {
        assert BuiltElement(p, ident, items[i], false);
        NamedByText(items[i], ident);
      }
      var at := Select(items, ident, printed);
      if at < |items| {
        assert Named(r[|items|], ident, FormatScalar(r[at].fields[ident]));
      }
    }
  }

  lemma NamedByText(e: Json, ident: string)
    requires e.Obj? && ident in e.fields && PlainName(e.fields[ident])
    ensures forall tok :: Named(e, ident, tok) <==> FormatScalar(e.fields[ident]) == tok
  {
  }

  lemma {:induction false} ElementReplaced(p: Node, ident: string, items: seq<Json>, i: nat, m: map<string, Json>, strict: bool)
    requires i < |items| && BuiltItems(p, ident, items, strict) && BuiltElement(p, ident, Obj(m), strict)
    requires items[i].Obj? && ident in items[i].fields && m[ident] == items[i].fields[ident]
    ensures BuiltItems(p, ident, items[i := Obj(m)], strict)
  {
    var r := items[i := Obj(m)];
    assert ident in m;
    hide BuiltElement, PlainName;
    assert forall j, tok :: 0 <= j < |r| ==> Named(r[j], ident, tok) == Named(items[j], ident, tok);
  }

  // ---------- what is printed is direct ----------

  lemma {:induction false} InsertFacts(c: Node, sorted: seq<Node>)
    ensures forall d :: d in InsertByName(c, sorted) <==> d in sorted || (d == c && c.kind == Keyword)
    ensures Distinct(sorted) && c !in sorted ==> Distinct(InsertByName(c, sorted))
    ensures ByName(sorted) ==> ByName(InsertByName(c, sorted))
    decreases sorted
  {
    if c.kind == Keyword && sorted != [] {
      if Less(c.name, sorted[0].name) {
        InsertFirst(c, sorted);
      } else {
        InsertFacts(c, sorted[1..]);
        InsertLater(c, sorted, InsertByName(c, sorted[1..]));
      }
    }
  }

  /** No keyword comes after one with a greater name. */
  predicate ByName(kids: seq<Node>) {
    forall i, j :: 0 <= i < j < |kids| ==> !Less(kids[j].name, kids[i].name)
  }

  lemma InsertFirst(c: Node, sorted: seq<Node>)
    requires sorted != [] && Less(c.name, sorted[0].name)
    ensures ByName(sorted) ==> ByName([c] + sorted)
    ensures forall d :: d in [c] + sorted <==> d in sorted || d == c
    ensures Distinct(sorted) && c !in sorted ==> Distinct([c] + sorted)
  {
    if ByName(sorted) {
      forall j | 0 <= j < |sorted| ensures !Less(sorted[j].name, c.name) {
        LessTotal(c.name, sorted[j].name);
        if Less(sorted[j].name, c.name) {
          LessTransitive(sorted[j].name, c.name, sorted[0].name);
          LessTotal(sorted[0].name, sorted[0].name);
        }
      }
    }
  }

  lemma InsertLater(c: Node, sorted: seq<Node>, tail: seq<Node>)
    requires sorted != [] && !Less(c.name, sorted[0].name)
    requires forall d :: d in tail <==> d in sorted[1..] || d == c
    requires Distinct(sorted[1..]) && c !in sorted[1..] ==> Distinct(tail)
    requires ByName(sorted[1..]) ==> ByName(tail)
    ensures ByName(sorted) ==> ByName([sorted[0]] + tail)
    ensures forall d :: d in [sorted[0]] + tail <==> d in sorted || d == c
    ensures Distinct(sorted) && c !in sorted ==> Distinct([sorted[0]] + tail)
  {
    assert sorted == [sorted[0]] + sorted[1..];
    forall j | 0 <= j < |tail| && ByName(sorted) ensures !Less(tail[j].name, sorted[0].name) {
      assert tail[j] in tail;
    }
    forall j | 0 <= j < |tail| && Distinct(sorted) && c !in sorted ensures tail[j] != sorted[0] {
      assert tail[j] in tail;
    }
  }

  /** The keywords of a node, each once, in name order. */
  lemma {:induction false} KeywordsFacts(children: seq<Node>)
    requires forall i, j :: 0 <= i < j < |children| && children[i].kind == Keyword && children[j].kind == Keyword ==>
      children[i].name != children[j].name
    ensures forall c :: c in KeywordsOf(children) <==> c in children && c.kind == Keyword
    ensures Distinct(KeywordsOf(children)) && ByName(KeywordsOf(children))
  {
    if children != [] {
      var init, last := children[..|children| - 1], children[|children| - 1];
      KeywordsFacts(init);
      InsertFacts(last, KeywordsOf(init));
      assert children == init + [last];
    }
  }

  lemma {:induction false} LinesDirect(node: Node, m: map<string, Json>, canonical: bool)
    requires WellFormed(node) && (canonical ==> Built(node, m, false))
    ensures AllDirect(node, Lines(node, m), canonical)
    decreases Obj(m), 3, 0
  {
    var kids := KeywordsOf(node.children);
    KeywordsFacts(node.children);
    KidsDirect(node, kids, m, canonical);
  }

  lemma {:induction false} KidsDirect(node: Node, kids: seq<Node>, m: map<string, Json>, canonical: bool)
    requires WellFormed(node) && (canonical ==> Built(node, m, false))
    requires forall c :: c in kids ==> IsKeywordOf(node, c)
    ensures AllDirect(node, KidsLines(kids, m), canonical)
    decreases Obj(m), 2, |kids|
  {
    if kids != [] {
      KidsDirect(node, kids[..|kids| - 1], m, canonical);
      KidDirect(node, kids[|kids| - 1], m, canonical);
    }
  }

  lemma {:induction false} KidDirect(node: Node, c: Node, m: map<string, Json>, canonical: bool)
    requires WellFormed(node) && IsKeywordOf(node, c) && (canonical ==> Built(node, m, false))
    ensures AllDirect(node, KidLines(c, m), canonical)
    decreases Obj(m), 1, 0
  {
    DirectChild(node, c);
    var key := KeyOf(c);
    if key in m && c.name != "disable" {
      assert m[key] < Obj(m);
      if FirstParam(c).Some? {
        if m[key].Arr? {
          var p, ident := FirstParam(c).value, IdentityField(key);
          ItemsDirect(node, c, m[key].items, canonical);
        }
      } else if SingleValue(c).None? && m[key].Obj? {
        LinesDirect(c, m[key].fields, canonical);
        var lines := Lines(c, m[key].fields);
        forall i | 0 <= i < |lines| ensures Direct(node, Under([c.name], lines)[i], canonical) {
          assert ([c.name] + lines[i])[1..] == lines[i];
        }
      }
    }
  }

  lemma {:induction false} ItemsDirect(node: Node, c: Node, items: seq<Json>, canonical: bool)
    requires WellFormed(node) && IsKeywordOf(node, c) && IsArrayKeyword(c)
    requires canonical ==> forall i :: 0 <= i < |items| ==> BuiltElement(FirstParam(c).value, IdentityField(KeyOf(c)), items[i], false)
    ensures AllDirect(node, Under([c.name], ItemsLines(FirstParam(c).value, IdentityField(KeyOf(c)), items)), canonical)
    decreases items, 0, 0
  {
    DirectChild(node, c);
    var p, ident := FirstParam(c).value, IdentityField(KeyOf(c));
    if items != [] {
      var e := items[|items| - 1];
      ItemsDirect(node, c, items[..|items| - 1], canonical);
      UnderConcat([c.name], ItemsLines(p, ident, items[..|items| - 1]), ElementOnly(p, ident, e));
      if e.Obj? && ident in e.fields {
        LinesDirect(p, e.fields, canonical);
        ElementDirect(node, c, e.fields[ident], Lines(p, e.fields), canonical);
      }
    }
  }

  lemma ElementDirect(node: Node, c: Node, name: Json, lines: seq<Statement>, canonical: bool)
    requires FindKeyword(node.children, c.name) == Some(c) && IsArrayKeyword(c)
    requires AllDirect(FirstParam(c).value, lines, canonical) && (canonical ==> PlainName(name))
    ensures AllDirect(node, Under([c.name], Under([FormatScalar(name)], [[]] + lines)), canonical)
  {
    NameReadsBack(name);
    UnderUnder([c.name], [FormatScalar(name)], [[]] + lines);
    var all := [[]] + lines;
    forall i | 0 <= i < |all| ensures Direct(node, [c.name, FormatScalar(name)] + all[i], canonical) {
      var s := [c.name, FormatScalar(name)] + all[i];
      assert s[2..] == all[i];
      assert i > 0 ==> all[i] == lines[i - 1];
    }
    assert [c.name] + [FormatScalar(name)] == [c.name, FormatScalar(name)];
  }
}
