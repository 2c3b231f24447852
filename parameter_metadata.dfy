/** The parameter metadata of a prepared statement (`YdbParameterMetaDataImpl`): the
    declared parameters, in the order of the map they come from, laid out as an array of
    descriptions, an array of names and a map from name to position. Parameters are numbered
    from 1. */
module ParameterMetaData {
  import opened Wrappers

  /** `java.sql.ParameterMetaData.parameterNoNulls`, `parameterNullable`, `parameterModeIn` */
  const parameterNoNulls := 0
  const parameterNullable := 1
  const parameterModeIn := 1

  /** What the metadata reports of one parameter's type. */
  datatype TypeDescription = TypeDescription(
    isOptional: bool,
    sqlType: int,
    ydbTypeName: string,
    javaClassName: string)

  datatype ParamError =
    | ParameterNotFound(name: string)
    | ParameterOutOfRange(param: int)

  /** The keys of an ordered map are distinct. */
  predicate DistinctKeys<T>(types: seq<(string, T)>)
  {
    forall i, j :: 0 <= i < j < |types| ==> types[i].0 != types[j].0
  }

  class YdbParameterMetaData {
    const descriptions: array<TypeDescription>
    const names: array<string>
    const indexes: map<string, nat>

    /** `Configuration`'s checks, and more: the three views describe the same parameters,
        and the index map inverts the names array. */
    ghost predicate Valid()
      reads names
    {
      descriptions.Length == names.Length
      && (forall i :: 0 <= i < names.Length ==> names[i] in indexes && indexes[names[i]] == i)
      && (forall n :: n in indexes ==> indexes[n] < names.Length && names[indexes[n]] == n)
    }

    /** `asConfiguration(types)`: one pass over the map fills the three views. */
    constructor (types: seq<(string, TypeDescription)>)
      requires DistinctKeys(types)
      ensures Valid()
      ensures descriptions.Length == |types|
      ensures forall i :: 0 <= i < |types| ==> descriptions[i] == types[i].1 && names[i] == types[i].0
      ensures fresh(descriptions) && fresh(names)
    {
      var count := |types|;
      var d := new TypeDescription[count];
      var n := new string[count];
      var idx: map<string, nat> := map[];
      var index := 0;
      while index < count
        invariant 0 <= index <= count
        invariant forall i :: 0 <= i < index ==> d[i] == types[i].1 && n[i] == types[i].0
        invariant forall i :: 0 <= i < index ==> n[i] in idx && idx[n[i]] == i
        invariant forall k :: k in idx ==> idx[k] < index && n[idx[k]] == k
      {
        d[index] := types[index].1;
        n[index] := types[index].0;
        idx := idx[types[index].0 := index];
        index := index + 1;
      }
      descriptions := d;
      names := n;
      indexes := idx;
    }

    function GetParameterCount(): (r: nat)
      ensures r == descriptions.Length
    {
      descriptions.Length
    }

    /** `getIndex(param)`: the array position of parameter number `param`. */
    function GetIndex(param: int): (r: Result<nat, ParamError>)
      ensures r.Ok? <==> 1 <= param <= descriptions.Length
      ensures r.Ok? ==> r.value == param - 1 && r.value < descriptions.Length
      ensures r.Err? ==> r.error == ParameterOutOfRange(param)
    {
      if param <= 0 || param > descriptions.Length then Err(ParameterOutOfRange(param)) else Ok(param - 1)
    }

    function GetDescription(param: int): (r: Result<TypeDescription, ParamError>)
      reads descriptions
      ensures r.Ok? <==> 1 <= param <= descriptions.Length
      ensures r.Ok? ==> r.value == descriptions[param - 1]
    {
      match GetIndex(param)
      case Err(e) => Err(e)
      case Ok(i) => Ok(descriptions[i])
    }

    function IsNullable(param: int): (r: Result<int, ParamError>)
      reads descriptions
      ensures r.Ok? <==> 1 <= param <= descriptions.Length
      ensures r.Ok? ==> (r.value == parameterNullable <==> descriptions[param - 1].isOptional)
      ensures r.Ok? ==> r.value in {parameterNullable, parameterNoNulls}
    {
      match GetDescription(param)
      case Err(e) => Err(e)
      case Ok(d) => Ok(if d.isOptional then parameterNullable else parameterNoNulls)
    }

    function GetParameterType(param: int): (r: Result<int, ParamError>)
      reads descriptions
      ensures r.Ok? <==> 1 <= param <= descriptions.Length
      ensures r.Ok? ==> r.value == descriptions[param - 1].sqlType
    {
      match GetDescription(param)
      case Err(e) => Err(e)
      case Ok(d) => Ok(d.sqlType)
    }

    function GetParameterTypeName(param: int): (r: Result<string, ParamError>)
      reads descriptions
      ensures r.Ok? <==> 1 <= param <= descriptions.Length
      ensures r.Ok? ==> r.value == descriptions[param - 1].ydbTypeName
    {
      match GetDescription(param)
      case Err(e) => Err(e)
      case Ok(d) => Ok(d.ydbTypeName)
    }

    function GetParameterClassName(param: int): (r: Result<string, ParamError>)
      reads descriptions
      ensures r.Ok? <==> 1 <= param <= descriptions.Length
      ensures r.Ok? ==> r.value == descriptions[param - 1].javaClassName
    {
      match GetDescription(param)
      case Err(e) => Err(e)
      case Ok(d) => Ok(d.javaClassName)
    }

    /** `getParameterIndex(name)`: the 1-based number of a declared name. */
    function GetParameterIndex(name: string): (r: Result<int, ParamError>)
      ensures r.Ok? <==> name in indexes
      ensures r.Err? ==> r.error == ParameterNotFound(name)
      ensures r.Ok? ==> r.value >= 1
    {
      if name !in indexes then Err(ParameterNotFound(name)) else Ok(indexes[name] + 1)
    }

    function GetParameterName(param: int): (r: Result<string, ParamError>)
      requires names.Length == descriptions.Length
      reads names
      ensures r.Ok? <==> 1 <= param <= descriptions.Length
      ensures r.Err? ==> r.error == ParameterOutOfRange(param)
    {
      match GetIndex(param)
      case Err(e) => Err(e)
      case Ok(i) => Ok(names[i])
    }

    /** `isSigned`, `getPrecision`, `getScale` and `getParameterMode` answer the same for
        every parameter number, valid or not. */
    function IsSigned(param: int): (r: bool)
      ensures !r
    {
      false
    }

    function GetPrecision(param: int): (r: int)
      ensures r == 0
    {
      0
    }

    function GetScale(param: int): (r: int)
      ensures r == 0
    {
      0
    }

    function GetParameterMode(param: int): (r: int)
      ensures r == parameterModeIn
    {
      parameterModeIn
    }
  }

  // ---- properties ----

  /** Numbers and names match both ways: the name of a valid number has that number, and the
      number of a declared name has that name. */
  lemma NameIndexRoundTrip(m: YdbParameterMetaData, param: int, name: string)
    requires m.Valid()
    ensures 1 <= param <= m.GetParameterCount() ==>
              m.GetParameterName(param).Ok? && m.GetParameterIndex(m.GetParameterName(param).value) == Ok(param)
    ensures m.GetParameterIndex(name).Ok? ==>
              m.GetParameterName(m.GetParameterIndex(name).value) == Ok(name)
  {
  }

  /** Every parameter number is either valid, for every getter at once, or out of range, for
      every getter at once. */
  lemma GettersAgreeOnRange(m: YdbParameterMetaData, param: int)
    requires m.Valid()
    ensures m.GetParameterName(param).Ok? == m.GetParameterType(param).Ok? == m.IsNullable(param).Ok?
            == m.GetParameterTypeName(param).Ok? == m.GetParameterClassName(param).Ok?
    ensures m.GetParameterType(param).Err? ==> m.GetParameterType(param).error == ParameterOutOfRange(param)
    ensures m.IsNullable(param).Err? ==> m.IsNullable(param).error == ParameterOutOfRange(param)
  {
  }

  /** The metadata of an ordered map has one parameter per entry, numbered in the map's order,
      and knows exactly the map's names. */
  lemma {:induction false} MetaDataOfMap(m: YdbParameterMetaData, types: seq<(string, TypeDescription)>, name: string)
    requires m.Valid() && m.descriptions.Length == |types|
    requires forall i :: 0 <= i < |types| ==> m.descriptions[i] == types[i].1 && m.names[i] == types[i].0
    ensures m.GetParameterCount() == |types|
    ensures forall p :: 1 <= p <= |types| ==> m.GetParameterName(p) == Ok(types[p - 1].0)
    ensures m.GetParameterIndex(name).Ok? <==> exists i :: 0 <= i < |types| && types[i].0 == name
  {
    if exists i :: 0 <= i < |types| && types[i].0 == name {
      var i :| 0 <= i < |types| && types[i].0 == name;
      assert m.names[i] in m.indexes;
    }
  }
}
