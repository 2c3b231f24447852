/** Parameter binding of a prepared data query (`YdbPreparedStatementImpl`): the declared
    parameters and their descriptions, fixed when the statement is prepared, and the values
    bound so far, which `setImpl` updates by name and `clearParameters` resets. The conversion
    of a Java value to a YDB value is an input of `setImpl`. */
module PreparedStatements {
  import opened Wrappers
  import opened Strings
  import opened YdbTypes
  import Meta = ParameterMetaData

  type TypeDescription = Meta.TypeDescription

  datatype StatementError =
    | ParameterNotFound(name: string)
    | IndexedParametersUnsupported
    | BatchUnsupported
    | ConversionFailed(message: string)

  /** The batch operations a prepared data query refuses. */
  datatype BatchOp = AddBatch | ClearBatch | ExecuteBatch

  const VariablePrefix := "$"

  /** The name `setImpl` looks up: with prefix enforcement, a name not starting with `$`
      gets one. */
  function NormalizeName(enforceVariablePrefix: bool, name: string): (r: string)
  {
    if enforceVariablePrefix && !StartsWith(name, VariablePrefix) then VariablePrefix + name else name
  }

  /** The descriptions of an ordered map of declared types, by name. */
  function DescriptionsOf(types: seq<(string, YdbType)>, describe: YdbType -> TypeDescription)
    : (m: map<string, TypeDescription>)
    ensures forall k :: k in m <==> exists i :: 0 <= i < |types| && types[i].0 == k
  {
    if types == [] then map[]
    else DescriptionsOf(types[..|types| - 1], describe)[types[|types| - 1].0 := describe(types[|types| - 1].1)]
  }

  /** `getParameter(name)` */
  function GetParameter(descriptions: map<string, TypeDescription>, name: string)
    : (r: Result<TypeDescription, StatementError>)
  {
    if name !in descriptions then Err(ParameterNotFound(name)) else Ok(descriptions[name])
  }

  /** `setImpl(name, x, sqlType)`: the new bound values and the outcome. The name is
      normalized, then looked up, then the value converted; a failure at either step changes
      nothing. */
  function SetSpec<X, V>(params: map<string, V>, descriptions: map<string, TypeDescription>,
                         enforceVariablePrefix: bool, origName: string, x: X,
                         convert: (string, TypeDescription, X) -> Result<V, string>)
    : (map<string, V>, Result<(), StatementError>)
  {
    var name := NormalizeName(enforceVariablePrefix, origName);
    match GetParameter(descriptions, name)
    case Err(e) => (params, Err(e))
    case Ok(d) =>
      match convert(name, d, x)
      case Err(msg) => (params, Err(ConversionFailed(msg)))
      case Ok(v) => (params[name := v], Ok(()))
  }

  /** `setImpl(parameterIndex, x, sqlType)`: binding by position is refused. */
  function SetByIndex(parameterIndex: int): (r: Result<(), StatementError>)
    ensures r.Err? && r.error == IndexedParametersUnsupported
  {
    Err(IndexedParametersUnsupported)
  }

  /** `addBatch`, `clearBatch`, `executeBatch` */
  function Batch(op: BatchOp): (r: Result<(), StatementError>)
    ensures r.Err? && r.error == BatchUnsupported
  {
    Err(BatchUnsupported)
  }

  class YdbPreparedStatement<V> {
    /** The query's declared parameters, in declaration order, and `TypeDescription.of`. */
    const types: seq<(string, YdbType)>
    const describe: YdbType -> TypeDescription
    const descriptions: map<string, TypeDescription>
    const enforceVariablePrefix: bool
    var params: map<string, V>

    /** Every bound value belongs to a declared parameter. */
    ghost predicate Valid()
      reads this
    {
      params.Keys <= descriptions.Keys
    }

    /** The descriptions are built by one pass over the declared types; no value is bound. */
    constructor (types: seq<(string, YdbType)>, describe: YdbType -> TypeDescription, enforceVariablePrefix: bool)
      ensures Valid()
      ensures this.types == types && this.describe == describe && this.enforceVariablePrefix == enforceVariablePrefix
      ensures descriptions == DescriptionsOf(types, describe)
      ensures params == map[]
    {
      var d: map<string, TypeDescription> := map[];
      var i := 0;
      while i < |types|
        invariant 0 <= i <= |types|
        invariant d == DescriptionsOf(types[..i], describe)
      {
        assert types[..i + 1][..i] == types[..i];
        d := d[types[i].0 := describe(types[i].1)];
        i := i + 1;
      }
      assert types[..i] == types;
      this.types := types;
      this.describe := describe;
      this.descriptions := d;
      this.enforceVariablePrefix := enforceVariablePrefix;
      this.params := map[];
    }

    /** `clearParameters()`: a fresh, empty parameter set. */
    method ClearParameters()
      modifies this
      ensures Valid() && params == map[]
    {
      params := map[];
    }

    /** `afterExecute()` */
    method AfterExecute()
      modifies this
      ensures Valid() && params == map[]
    {
      ClearParameters();
    }

    method SetImpl<X>(origName: string, x: X, convert: (string, TypeDescription, X) -> Result<V, string>)
      returns (r: Result<(), StatementError>)
      requires Valid()
      modifies this
      ensures Valid()
      ensures (params, r) == SetSpec(old(params), descriptions, enforceVariablePrefix, origName, x, convert)
    {
      var parameterName;
      if enforceVariablePrefix && !StartsWith(origName, VariablePrefix) {
        parameterName := VariablePrefix + origName;
      } else {
        parameterName := origName;
      }
      var description := GetParameter(descriptions, parameterName);
      if description.Err? {
        return Err(description.error);
      }
      var value := convert(parameterName, description.value, x);
      if value.Err? {
        return Err(ConversionFailed(value.error));
      }
      params := params[parameterName := value.value];
      return Ok(());
    }

    /** `getParameterTypes()`: the declared names, in order, with their descriptions. */
    method GetParameterTypes() returns (target: seq<(string, TypeDescription)>)
      ensures |target| == |types|
      ensures forall i :: 0 <= i < |types| ==> target[i] == (types[i].0, describe(types[i].1))
    {
      target := [];
      var i := 0;
      while i < |types|
        invariant 0 <= i <= |types| && |target| == i
        invariant forall k :: 0 <= k < i ==> target[k] == (types[k].0, describe(types[k].1))
      {
        target := target + [(types[i].0, describe(types[i].1))];
        i := i + 1;
      }
    }
  }

  // ---- properties ----

  /** With enforcement, every normalized name starts with `$`, and normalizing twice is
      normalizing once; without it, names are kept. */
  lemma NormalizeNameProperties(enforce: bool, name: string)
    ensures enforce ==> StartsWith(NormalizeName(enforce, name), VariablePrefix)
    ensures NormalizeName(enforce, NormalizeName(enforce, name)) == NormalizeName(enforce, name)
    ensures !enforce || StartsWith(name, VariablePrefix) ==> NormalizeName(enforce, name) == name
    ensures enforce && !StartsWith(name, VariablePrefix) ==> NormalizeName(enforce, name)[1..] == name
  {
    if enforce && !StartsWith(name, VariablePrefix) {
      assert (VariablePrefix + name)[..1] == VariablePrefix;
    }
  }

  /** A name that is not declared fails with that (normalized) name and binds nothing; a
      successful set binds the converted value under the normalized name and leaves every
      other binding as it was. */
  lemma SetBindsOnlyItsName<X, V>(params: map<string, V>, descriptions: map<string, TypeDescription>,
                                  enforce: bool, origName: string, x: X,
                                  convert: (string, TypeDescription, X) -> Result<V, string>)
    ensures var name := NormalizeName(enforce, origName);
            name !in descriptions ==>
              SetSpec(params, descriptions, enforce, origName, x, convert) == (params, Err(ParameterNotFound(name)))
    ensures SetSpec(params, descriptions, enforce, origName, x, convert).1.Err? ==>
              SetSpec(params, descriptions, enforce, origName, x, convert).0 == params
    ensures var name := NormalizeName(enforce, origName);
            SetSpec(params, descriptions, enforce, origName, x, convert).1.Ok? ==>
              name in descriptions
              && convert(name, descriptions[name], x).Ok?
              && SetSpec(params, descriptions, enforce, origName, x, convert).0[name] == convert(name, descriptions[name], x).value
              && forall k :: k != name ==>
                   (k in SetSpec(params, descriptions, enforce, origName, x, convert).0 <==> k in params)
                   && (k in params ==> SetSpec(params, descriptions, enforce, origName, x, convert).0[k] == params[k])
  {
  }

  /** Binding keeps every bound name a declared one. */
  lemma SetKeepsBindingsDeclared<X, V>(params: map<string, V>, descriptions: map<string, TypeDescription>,
                                       enforce: bool, origName: string, x: X,
                                       convert: (string, TypeDescription, X) -> Result<V, string>)
    requires params.Keys <= descriptions.Keys
    ensures SetSpec(params, descriptions, enforce, origName, x, convert).0.Keys <= descriptions.Keys
  {
  }

  /** Every declared name has the description of its type, and no other name has one. */
  lemma {:induction false} DescriptionsOfDeclared(types: seq<(string, YdbType)>, describe: YdbType -> TypeDescription, i: nat)
    requires Meta.DistinctKeys(types) && i < |types|
    ensures DescriptionsOf(types, describe)[types[i].0] == describe(types[i].1)
  {
    var init := types[..|types| - 1];
    if i < |types| - 1 {
      assert init[i] == types[i];
      DescriptionsOfDeclared(init, describe, i);
    }
  }

  /** The ordered map `getParameterTypes` builds has the distinct keys the metadata needs. */
  lemma ParameterTypesKeepKeys(types: seq<(string, YdbType)>, describe: YdbType -> TypeDescription,
                               target: seq<(string, TypeDescription)>)
    requires Meta.DistinctKeys(types)
    requires |target| == |types| && forall i :: 0 <= i < |types| ==> target[i] == (types[i].0, describe(types[i].1))
    ensures Meta.DistinctKeys(target)
  {
  }
}
