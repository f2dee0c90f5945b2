/** JSON trees; the numbers of a configuration are integers. */
module JsonTree {
  import opened Decimal

  datatype Json = Null | Bool(b: bool) | Num(n: int) | Str(s: string) | Arr(items: seq<Json>) | Obj(fields: map<string, Json>)

  predicate IsScalar(j: Json) {
    j.Str? || j.Num? || j.Bool?
  }

  function ScalarString(j: Json): string
    requires IsScalar(j)
  {
    match j
    case Str(s) => s
    case Num(n) => Itoa(n)
    case Bool(b) => if b then "true" else "false"
  }
}
