/**
  The statement language: `applyTokens` interprets the tokens of a set statement against the
  command tree and updates the configuration tree (internal/api/cliexec.go),
  `emitMechanicalInner` prints a configuration tree as statements (internal/api/setstmt.go).
 */
module Statements {
  import opened Common
  import opened Decimal
  import opened Ordering
  import opened JsonTree
  import opened Schema
  import CoreList
  import Text

  type Statement = seq<string>

  datatype SetError = UnknownStatement(tok: string) | Incomplete | BadValue(tok: string)

  // ---------- tokens and scalars ----------

  function TypedScalar(tok: string): Json {
    if tok == "true" then Bool(true)
    else if tok == "false" then Bool(false)
    else match Atoi(tok)
      case Some(n) => Num(n)
      case None => Str(tok)
  }

  const NUMERIC_TYPES: set<string> := {"", "uint", "int", "number", "bool"}

  /** The type of a value leaf is that of its value node. */
  function LeafType(c: Node): string {
    if c.kind == Keyword && SingleValue(c).Some? then SingleValue(c).value.paramType else c.paramType
  }

  function ScalarForNode(c: Node, tok: string): Json {
    var v := TypedScalar(tok);
    if LeafType(c) !in NUMERIC_TYPES && v.Num? then Str(tok) else v
  }

  const CORE_KEYS: set<string> := {"isolated_cores", "cores"}
  const BOOL_KEYS: set<string> := {"nmi_watchdog", "low_latency"}
  const INT_KEYS: set<string> := {"vlan", "native"}

  function CoreItems(xs: seq<int>): (r: seq<Json>)
    ensures |r| == |xs|
  {
    seq(|xs|, i requires 0 <= i < |xs| => Num(xs[i]))
  }

  /** The value a token gives a leaf: valueTransforms first, then the node's type. */
  function LeafValue(key: string, c: Node, tok: string): Option<Json> {
    if key in CORE_KEYS then
      match CoreList.Expanded(tok)
      case Ok(xs) => Some(Arr(CoreItems(xs)))
      case Err(_) => None
    else if key in BOOL_KEYS then
      if tok == "true" then Some(Bool(true)) else if tok == "false" then Some(Bool(false)) else None
    else if key in INT_KEYS then
      match Atoi(tok)
      case Some(n) => Some(Num(n))
      case None => None
    else Some(ScalarForNode(c, tok))
  }

  /** formatScalar; the JSON text it gives for containers is not modelled. */
  function FormatScalar(v: Json): string {
    if IsScalar(v) then ScalarString(v) else ""
  }

  function FormatItems(items: seq<Json>): (parts: seq<string>)
    ensures |parts| == |items|
  {
    seq(|items|, i requires 0 <= i < |items| => FormatScalar(items[i]))
  }

  function FormatValue(key: string, v: Json): string {
    if key in CORE_KEYS && v.Arr? then Text.Join(FormatItems(v.items), ',') else FormatScalar(v)
  }

  const SENSITIVE_LEAVES: set<string> := {"password", "password_hash", "token", "secret", "private_key", "psk"}

  // ---------- the interpreter ----------

  /** scalarEq on the identity field of an array element. */
  predicate Named(e: Json, ident: string, tok: string) {
    e.Obj? && ident in e.fields && IsScalar(e.fields[ident]) && ScalarString(e.fields[ident]) == tok
  }

  /** selectElement: the first match; |items| if there is none. */
  function Select(items: seq<Json>, ident: string, tok: string): (i: nat)
    ensures i <= |items|
    ensures i < |items| ==> Named(items[i], ident, tok)
    ensures forall j :: 0 <= j < i ==> !Named(items[j], ident, tok)
  {
    if items == [] then 0 else if Named(items[0], ident, tok) then 0 else 1 + Select(items[1..], ident, tok)
  }

  function ItemsAt(cur: map<string, Json>, key: string): seq<Json> {
    if key in cur && cur[key].Arr? then cur[key].items else []
  }

  function FieldsAt(cur: map<string, Json>, key: string): map<string, Json> {
    if key in cur && cur[key].Obj? then cur[key].fields else map[]
  }

  /** The array with an element of this name: as it is, or with a new one at the end. */
  function WithElement(items: seq<Json>, ident: string, tok: string): (r: seq<Json>)
    ensures Select(items, ident, tok) < |r| && r[Select(items, ident, tok)].Obj?
  {
    if Select(items, ident, tok) < |items| then items else items + [Obj(map[ident := TypedScalar(tok)])]
  }

  /** What the next token is for: a keyword, a leaf's value, or the name of an array element. */
  datatype Pending = Idle | AwaitValue(key: string) | AwaitName(key: string)

  /** A keyword among the children of `node`, else of its ancestors, nearest first; with its own ancestors. */
  function Resolve(node: Node, ancestors: seq<Node>, tok: string): Option<(Node, seq<Node>)>
    decreases |ancestors|
  {
    match FindKeyword(node.children, tok)
    case Some(c) => Some((c, [node] + ancestors))
    case None => if ancestors == [] then None else Resolve(ancestors[0], ancestors[1..], tok)
  }

  /**
    The rest of a statement, at `node` of the command tree and in the object `cur` of the
    configuration: `cur` with the statement carried out. The object stays when a keyword is
    found among the ancestors.
   */
  function Run(node: Node, ancestors: seq<Node>, cur: map<string, Json>, pending: Pending, toks: Statement): Result<map<string, Json>, SetError>
    requires pending.AwaitName? ==> FirstParam(node).Some?
    decreases |toks|
  {
    if toks == [] then Err(Incomplete)
    else
      var tok, last, rest := toks[0], |toks| == 1, toks[1..];
      match pending
      case AwaitValue(key) =>
        (match LeafValue(key, node, tok)
         case None => Err(BadValue(tok))
         case Some(v) => if last then Ok(cur[key := v]) else Run(node, ancestors, cur[key := v], Idle, rest))
      case AwaitName(key) =>
        var ident := IdentityField(key);
        var i, items := Select(ItemsAt(cur, key), ident, tok), WithElement(ItemsAt(cur, key), ident, tok);
        if last then Ok(cur[key := Arr(items)])
        else
          (match Run(FirstParam(node).value, [node] + ancestors, items[i].fields, Idle, rest)
           case Err(e) => Err(e)
           case Ok(m) => Ok(cur[key := Arr(items[i := Obj(m)])]))
      case Idle =>
        match Resolve(node, ancestors, tok)
        case None => Err(UnknownStatement(tok))
        case Some(found) =>
          var (c, up) := found;
          var key := JsonKey(c.name);
          if last && tok == "disable" then Ok(cur["enabled" := Bool(false)])
          else if FirstParam(c).Some? then
            Run(c, up, if key in cur then cur else cur[key := Arr([])], AwaitName(key), rest)
          else if SingleValue(c).Some? then Run(c, up, cur, AwaitValue(key), rest)
          else
            match Run(c, up, FieldsAt(cur, key), Idle, rest)
            case Err(e) => Err(e)
            case Ok(m) => Ok(cur[key := Obj(m)])
  }

  /** A statement typed at the top. */
  function Applied(root: Node, tree: map<string, Json>, toks: Statement): Result<map<string, Json>, SetError> {
    Run(root, [], tree, Idle, toks)
  }

  /** Statements one after the other; the first error ends it. */
  function Replay(node: Node, ancestors: seq<Node>, tree: map<string, Json>, statements: seq<Statement>): Result<map<string, Json>, SetError>
    decreases |statements|
  {
    if statements == [] then Ok(tree)
    else
      match Run(node, ancestors, tree, Idle, statements[0])
      case Err(e) => Err(e)
      case Ok(t) => Replay(node, ancestors, t, statements[1..])
  }

  /** An object on the way from the top to the current one. */
  datatype Frame = InField(m: map<string, Json>, key: string) | InElement(m: map<string, Json>, key: string, items: seq<Json>, i: nat)

  predicate Fits(spine: seq<Frame>) {
    forall f :: 0 <= f < |spine| && spine[f].InElement? ==> spine[f].i < |spine[f].items|
  }

  /** The whole tree around the current object. */
  function Plug(spine: seq<Frame>, cur: map<string, Json>): map<string, Json>
    requires Fits(spine)
    decreases |spine|
  {
    if spine == [] then cur
    else
      var f, outer := spine[|spine| - 1], spine[..|spine| - 1];
      match f
      case InField(m, key) => Plug(outer, m[key := Obj(cur)])
      case InElement(m, key, items, i) => Plug(outer, m[key := Arr(items[i := Obj(cur)])])
  }

  function Around(spine: seq<Frame>, r: Result<map<string, Json>, SetError>): Result<map<string, Json>, SetError>
    requires Fits(spine)
  {
    match r
    case Err(e) => Err(e)
    case Ok(m) => Ok(Plug(spine, m))
  }

  lemma {:induction false} AroundOk(spine: seq<Frame>, m: map<string, Json>)
    requires Fits(spine)
    ensures Around(spine, Ok(m)) == Ok(Plug(spine, m))
  {
  }

  lemma AroundError(spine: seq<Frame>, e: SetError)
    requires Fits(spine)
    ensures Around(spine, Err(e)) == Err(e)
  {
  }

  lemma AroundNothing(r: Result<map<string, Json>, SetError>)
    ensures Around([], r) == r
  {
  }

  lemma PlugField(spine: seq<Frame>, m: map<string, Json>, key: string, r: Result<map<string, Json>, SetError>)
    requires Fits(spine)
    ensures Fits(spine + [InField(m, key)])
    ensures Around(spine + [InField(m, key)], r) ==
            Around(spine, match r case Err(e) => Err(e) case Ok(n) => Ok(m[key := Obj(n)]))
  {
    assert (spine + [InField(m, key)])[..|spine|] == spine;
  }

  lemma PlugElement(spine: seq<Frame>, m: map<string, Json>, key: string, items: seq<Json>, i: nat, r: Result<map<string, Json>, SetError>)
    requires Fits(spine) && i < |items|
    ensures Fits(spine + [InElement(m[key := Arr(items)], key, items, i)])
    ensures Around(spine + [InElement(m[key := Arr(items)], key, items, i)], r) ==
            Around(spine, match r case Err(e) => Err(e) case Ok(n) => Ok(m[key := Arr(items[i := Obj(n)])]))
  {
    assert (spine + [InElement(m[key := Arr(items)], key, items, i)])[..|spine|] == spine;
    if r.Ok? {
      assert m[key := Arr(items)][key := Arr(items[i := Obj(r.value)])] == m[key := Arr(items[i := Obj(r.value)])];
    }
  }

  /** One pass over the tokens with a cursor in the command tree and one in the configuration. */
  method ApplyTokens(root: Node, tree: map<string, Json>, tokens: Statement) returns (r: Result<map<string, Json>, SetError>)
    ensures r == Applied(root, tree, tokens)
  {
    hide LeafValue, TypedScalar, IdentityField, JsonKey, Select, FindKind, FindKeyword, Plug, Around;
    var node, ancestors: seq<Node>, cur, pending := root, [], tree, Idle;
    var spine: seq<Frame> := [];
    assert tokens[0..] == tokens;
    AroundNothing(Applied(root, tree, tokens));
    for i := 0 to |tokens|
      invariant Fits(spine) && (pending.AwaitName? ==> FirstParam(node).Some?)
      invariant Applied(root, tree, tokens) == Around(spine, Run(node, ancestors, cur, pending, tokens[i..]))
    {
      var tok, last := tokens[i], i == |tokens| - 1;
      assert tokens[i..][0] == tok && tokens[i..][1..] == tokens[i + 1..];
      match pending
      case AwaitValue(key) =>
        var v := LeafValue(key, node, tok);
        if v.None? {
          AroundError(spine, BadValue(tok));
          return Err(BadValue(tok));
        }
        cur, pending := cur[key := v.value], Idle;
        if last {
          AroundOk(spine, cur);
          return Ok(Plug(spine, cur));
        }
      case AwaitName(key) =>
        var ident := IdentityField(key);
        var at := Select(ItemsAt(cur, key), ident, tok);
        var items := WithElement(ItemsAt(cur, key), ident, tok);
        if !last {
          PlugElement(spine, cur, key, items, at, Run(FirstParam(node).value, [node] + ancestors, items[at].fields, Idle, tokens[i + 1..]));
        }
        cur := cur[key := Arr(items)];
        if last {
          AroundOk(spine, cur);
          return Ok(Plug(spine, cur));
        }
        spine := spine + [InElement(cur, key, items, at)];
        ancestors, node, cur, pending := [node] + ancestors, FirstParam(node).value, items[at].fields, Idle;
      case Idle =>
        var found := Resolve(node, ancestors, tok);
        if found.None? {
          AroundError(spine, UnknownStatement(tok));
          return Err(UnknownStatement(tok));
        }
        var (c, up) := found.value;
        var key := JsonKey(c.name);
        if last && tok == "disable" {
          AroundOk(spine, cur["enabled" := Bool(false)]);
          return Ok(Plug(spine, cur["enabled" := Bool(false)]));
        }
        if FirstParam(c).Some? {
          if key !in cur {
            cur := cur[key := Arr([])];
          }
          pending := AwaitName(key);
        } else if SingleValue(c).Some? {
          pending := AwaitValue(key);
        } else {
          PlugField(spine, cur, key, Run(c, up, FieldsAt(cur, key), Idle, tokens[i + 1..]));
          spine := spine + [InField(cur, key)];
          cur := FieldsAt(cur, key);
        }
        node, ancestors := c, up;
    }
    AroundError(spine, Incomplete);
    r := Err(Incomplete);
  }

  // ---------- the printer ----------

  function KeywordsOf(children: seq<Node>): seq<Node> {
    if children == [] then []
    else InsertByName(children[|children| - 1], KeywordsOf(children[..|children| - 1]))
  }

  /** Insertion into the keywords sorted by name; other nodes are dropped. */
  function InsertByName(c: Node, sorted: seq<Node>): seq<Node>
    decreases sorted
  {
    if c.kind != Keyword then sorted
    else if sorted == [] || Less(c.name, sorted[0].name) then [c] + sorted
    else [sorted[0]] + InsertByName(c, sorted[1..])
  }

  function Under(prefix: Statement, statements: seq<Statement>): (r: seq<Statement>)
    ensures |r| == |statements|
  {
    seq(|statements|, i requires 0 <= i < |statements| => prefix + statements[i])
  }

  /** The statements for an object at a node, relative to that node. */
  function Lines(node: Node, m: map<string, Json>): seq<Statement>
    decreases Obj(m), 3, 0
  {
    KidsLines(KeywordsOf(node.children), m)
  }

  function KidsLines(kids: seq<Node>, m: map<string, Json>): seq<Statement>
    decreases Obj(m), 2, |kids|
  {
    if kids == [] then [] else KidsLines(kids[..|kids| - 1], m) + KidLines(kids[|kids| - 1], m)
  }

  function KidLines(c: Node, m: map<string, Json>): seq<Statement>
    decreases Obj(m), 1, 0
  {
    var key := KeyOf(c);
    if key !in m then []
    else
      assert m[key] < Obj(m);
      if c.name == "disable" then if m[key] == Bool(false) then [[c.name]] else []
      else if FirstParam(c).Some? then
        if m[key].Arr? then Under([c.name], ItemsLines(FirstParam(c).value, IdentityField(key), m[key].items)) else []
      else if SingleValue(c).Some? && |c.children| == 1 then
        if key in SENSITIVE_LEAVES then [] else [[c.name, FormatValue(key, m[key])]]
      else if m[key].Obj? then Under([c.name], Lines(c, m[key].fields))
      else []
  }

  /** Each element is declared first, then filled. */
  function ItemsLines(p: Node, ident: string, items: seq<Json>): seq<Statement>
    decreases items, 0, 0
  {
    if items == [] then []
    else
      ItemsLines(p, ident, items[..|items| - 1]) + ElementOnly(p, ident, items[|items| - 1])
  }

  function ElementOnly(p: Node, ident: string, e: Json): seq<Statement>
    decreases e, 4, 0
  {
    if e.Obj? && ident in e.fields then Under([FormatScalar(e.fields[ident])], [[]] + Lines(p, e.fields)) else []
  }

  method EmitMechanical(node: Node, val: Json, prefix: Statement) returns (out: seq<Statement>)
    ensures out == if val.Obj? then Under(prefix, Lines(node, val.fields)) else []
    decreases val
  {
    out := [];
    if !val.Obj? {
      return;
    }
    var m, kids := val.fields, KeywordsOf(node.children);
    for i := 0 to |kids|
      invariant out == Under(prefix, KidsLines(kids[..i], m))
    {
      var c := kids[i];
      var key, p2 := KeyOf(c), prefix + [c.name];
      var more: seq<Statement> := [];
      if c.name == "disable" {
        if "enabled" in m && m["enabled"] == Bool(false) {
          more := [p2];
        }
      } else if key in m {
        assert m[key] < val;
        if FirstParam(c).Some? {
          if m[key].Arr? {
            more := EmitElements(FirstParam(c).value, IdentityField(key), m[key].items, p2);
            UnderUnder(prefix, [c.name], ItemsLines(FirstParam(c).value, IdentityField(key), m[key].items));
          }
        } else if SingleValue(c).Some? && |c.children| == 1 {
          if key !in SENSITIVE_LEAVES {
            more := [p2 + [FormatValue(key, m[key])]];
            assert p2 + [FormatValue(key, m[key])] == prefix + [c.name, FormatValue(key, m[key])];
          }
        } else {
          more := EmitMechanical(c, m[key], p2);
          if m[key].Obj? {
            UnderUnder(prefix, [c.name], Lines(c, m[key].fields));
          }
        }
      }
      assert more == Under(prefix, KidLines(c, m));
      UnderConcat(prefix, KidsLines(kids[..i], m), KidLines(c, m));
      assert kids[..i + 1][..i] == kids[..i];
      out := out + more;
    }
    assert kids[..|kids|] == kids;
  }

  method EmitElements(p: Node, ident: string, items: seq<Json>, prefix: Statement) returns (out: seq<Statement>)
    ensures out == Under(prefix, ItemsLines(p, ident, items))
    decreases items
  {
    out := [];
    for i := 0 to |items|
      invariant out == Under(prefix, ItemsLines(p, ident, items[..i]))
    {
      var e := items[i];
      assert items[..i + 1][..i] == items[..i];
      if e.Obj? && ident in e.fields {
        var id := FormatScalar(e.fields[ident]);
        var more := EmitMechanical(p, e, prefix + [id]);
        out := out + [prefix + [id]] + more;
        ElementLines(p, prefix, id, Lines(p, e.fields));
      }
      UnderConcat(prefix, ItemsLines(p, ident, items[..i]), ElementOnly(p, ident, e));
    }
    assert items[..|items|] == items;
  }

  lemma ElementLines(p: Node, prefix: Statement, id: string, lines: seq<Statement>)
    ensures Under(prefix, Under([id], [[]] + lines)) == [prefix + [id]] + Under(prefix + [id], lines)
  {
    UnderUnder(prefix, [id], [[]] + lines);
    assert prefix + [id] + [] == prefix + [id];
  }

  lemma UnderConcat(prefix: Statement, xs: seq<Statement>, ys: seq<Statement>)
    ensures Under(prefix, xs + ys) == Under(prefix, xs) + Under(prefix, ys)
  {
  }

  lemma UnderUnder(p: Statement, q: Statement, xs: seq<Statement>)
    ensures Under(p, Under(q, xs)) == Under(p + q, xs)
  {
    forall i | 0 <= i < |xs| ensures p + (q + xs[i]) == (p + q) + xs[i] {
    }
  }
}
