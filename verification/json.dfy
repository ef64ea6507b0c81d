/** JSON values as the service returns them, and records as Python dicts
    from field name to value. */
module Json {

  datatype Json =
    | Null
    | Bool(b: bool)
    | Num(n: real)
    | Str(s: string)
    | Arr(items: seq<Json>)
    | Obj(fields: map<string, Json>)

  type Record = map<string, Json>

  /** Python truthiness: `None`, `False`, `0`, `""`, `[]` and `{}` are false. */
  predicate Truthy(j: Json)
  {
    match j
    case Null => false
    case Bool(b) => b
    case Num(n) => n != 0.0
    case Str(s) => s != ""
    case Arr(xs) => xs != []
    case Obj(m) => m != map[]
  }

  /** `d.get(k)`: a missing key and a JSON null both read as `None`. */
  function Get(r: Record, k: string): Json
  {
    if k in r then r[k] else Null
  }

  /** Values Python can use as dict keys (lists and dicts cannot). */
  predicate Hashable(j: Json)
  {
    !j.Arr? && !j.Obj?
  }

  /** Starting from `{}`, `merged.update(r)` for each record from left to right. */
  function UnionAll(rs: seq<Record>): Record
  {
    if rs == [] then map[] else UnionAll(rs[..|rs| - 1]) + rs[|rs| - 1]
  }

  /** Index of the last record that has field `k`, or -1 when none has it. */
  function LastWith(rs: seq<Record>, k: string): (i: int)
    ensures -1 <= i < |rs|
    ensures i >= 0 ==> k in rs[i]
    ensures forall j :: i < j < |rs| ==> k !in rs[j]
  {
    if rs == [] then -1
    else if k in rs[|rs| - 1] then |rs| - 1
    else LastWith(rs[..|rs| - 1], k)
  }

  /** A field is present in the union iff some record has it, and its value
      comes from the LAST record that has it. */
  lemma {:induction false} UnionAllFields(rs: seq<Record>, k: string)
    ensures k in UnionAll(rs) <==> LastWith(rs, k) >= 0
    ensures k in UnionAll(rs) ==> UnionAll(rs)[k] == rs[LastWith(rs, k)][k]
  {
    if rs != [] && k !in rs[|rs| - 1] {
      UnionAllFields(rs[..|rs| - 1], k);
    }
  }

  lemma UnionAllSingle(r: Record)
    ensures UnionAll([r]) == r
  {
    assert [r][..0] == [];
  }
}
