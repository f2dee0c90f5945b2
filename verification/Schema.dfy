/**
  The command tree (internal/schema/node.go) as the statement layers read it
  (internal/api/cliexec.go): keywords, value leaves and instance parameters.
 */
module Schema {
  import opened Common

  datatype Kind = Keyword | Value | Param

  datatype Node = Node(kind: Kind, name: string, paramType: string, children: seq<Node>)

  function FindKind(children: seq<Node>, kind: Kind): (r: Option<Node>)
    ensures r.Some? ==> r.value in children && r.value.kind == kind
  {
    if children == [] then None
    else if children[0].kind == kind then Some(children[0])
    else FindKind(children[1..], kind)
  }

  function FirstParam(n: Node): Option<Node> {
    FindKind(n.children, Param)
  }

  function SingleValue(n: Node): Option<Node> {
    FindKind(n.children, Value)
  }

  function FindKeyword(children: seq<Node>, tok: string): (r: Option<Node>)
    ensures r.Some? ==> r.value in children && r.value.kind == Keyword && r.value.name == tok
  {
    if children == [] then None
    else if children[0].kind == Keyword && children[0].name == tok then Some(children[0])
    else FindKeyword(children[1..], tok)
  }

  /** jsonKeyOf. */
  function JsonKey(name: string): string {
    if name == "" then "" else [if name[0] == '-' then '_' else name[0]] + JsonKey(name[1..])
  }

  /** The identity field of the elements of an array (identityFields). */
  function IdentityField(key: string): string {
    match key
    case "ports" => "seq"
    case "routes" => "prefix"
    case "hugepages" => "page_size"
    case "ntp" => "server"
    case "numa" => "node"
    case "rules" => "seq"
    case "l3_interfaces" => "interface"
    case "per_dev" => "interface"
    case _ => "name"
  }

  /** The key a keyword writes; the flag `disable` writes `enabled`. */
  function KeyOf(c: Node): string {
    if c.name == "disable" then "enabled" else JsonKey(c.name)
  }

  predicate IsKeywordOf(node: Node, c: Node) {
    c in node.children && c.kind == Keyword
  }

  function Owned(node: Node): set<string> {
    set c | c in node.children && c.kind == Keyword :: KeyOf(c)
  }

  /**
    The part of the schema language the model covers: keywords of one node differ in name and
    key, a value leaf has nothing beside its value, and no keyword overwrites an identity field.
   */
  predicate WellFormed(node: Node)
    decreases node
  {
    && (forall i, j :: 0 <= i < j < |node.children| && node.children[i].kind == Keyword && node.children[j].kind == Keyword ==>
          node.children[i].name != node.children[j].name && KeyOf(node.children[i]) != KeyOf(node.children[j]))
    && forall c :: c in node.children && c.kind == Keyword && c.name != "disable" ==>
         if FirstParam(c).Some? then
           IdentityField(KeyOf(c)) !in Owned(FirstParam(c).value) && WellFormed(FirstParam(c).value)
         else if SingleValue(c).Some? then |c.children| == 1
         else WellFormed(c)
  }

  lemma {:induction false} FindsKeyword(children: seq<Node>, c: Node)
    requires c in children && c.kind == Keyword
    requires forall i, j :: 0 <= i < j < |children| && children[i].kind == Keyword && children[j].kind == Keyword ==>
      children[i].name != children[j].name
    ensures FindKeyword(children, c.name) == Some(c)
  {
    if children[0] != c {
      assert c in children[1..];
      FindsKeyword(children[1..], c);
    }
  }

  lemma {:induction false} DirectChild(node: Node, c: Node)
    requires WellFormed(node) && IsKeywordOf(node, c)
    ensures FindKeyword(node.children, c.name) == Some(c) && KeyOf(c) in Owned(node)
    ensures c.name != "disable" && FirstParam(c).Some? ==>
      IdentityField(KeyOf(c)) !in Owned(FirstParam(c).value) && WellFormed(FirstParam(c).value)
    ensures c.name != "disable" && FirstParam(c).None? && SingleValue(c).Some? ==> |c.children| == 1
    ensures c.name != "disable" && FirstParam(c).None? && SingleValue(c).None? ==> WellFormed(c)
  {
    FindsKeyword(node.children, c);
  }

  lemma {:induction false} KeysDiffer(node: Node, c: Node, d: Node)
    requires WellFormed(node) && IsKeywordOf(node, c) && IsKeywordOf(node, d) && c != d
    ensures KeyOf(c) != KeyOf(d) && c.name != d.name
  {
    var i :| 0 <= i < |node.children| && node.children[i] == c;
    var j :| 0 <= j < |node.children| && node.children[j] == d;
  }
}
