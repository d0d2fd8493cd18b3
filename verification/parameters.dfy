/** The values a filter can mention and the named parameters SQL text is
    sent with (Dapper's DynamicParameters, as the ordered list of its adds). */
module Parameters {
  import opened Strings

  /** A runtime value: what a constant holds or a captured member evaluates to. */
  datatype Value = Null | Bool(b: bool) | Int(i: int) | Str(s: string)

  /** `value.ToString()` as string interpolation renders it (null renders as ""). */
  function ValueText(v: Value): string {
    match v
    case Null => ""
    case Bool(b) => if b then "True" else "False"
    case Int(i) => IntToString(i)
    case Str(s) => s
  }

  /** One `DynamicParameters.Add(name, value)`. */
  datatype Param = Param(name: string, value: Value)

  /** The names of a parameter bag, in the order they were added. */
  function Names(ps: seq<Param>): (ns: seq<string>)
    ensures |ns| == |ps|
    ensures forall i :: 0 <= i < |ps| ==> ns[i] == ps[i].name
  {
    seq(|ps|, i requires 0 <= i < |ps| => ps[i].name)
  }

  /** No two parameters share a name, so a dictionary of them loses none. */
  ghost predicate DistinctNames(ps: seq<Param>) {
    forall i, j :: 0 <= i < j < |ps| ==> ps[i].name != ps[j].name
  }

  /** The name the expression builder gives the parameter it binds for
      column text `column` when its counter stands at `k`: `@<column>_<k>`. */
  function ParamName(column: string, k: nat): (name: string)
    ensures HasIndex(name, k)
    ensures name[0] == '@'
  {
    var name := "@" + column + "_" + NatToString(k);
    assert name == ("@" + column) + ("_" + NatToString(k));
    name
  }
}
