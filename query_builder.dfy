/** The builder a query is rewritten into (`YdbQueryBuilder`): the original text, the text
    built so far, the names generated for `?` placeholders, and the one query kind the
    statements of the query may have. The four kinds are those of `QueryTypes`. */
module QueryBuilders {
  import opened Wrappers
  import opened Strings
  import opened QueryTypes
  import opened Validator

  const JdbcArgPrefix := "$jp"

  datatype BuilderError =
    | MultipleQueryTypes(current: QueryType, requested: QueryType, status: StatusError)
    | IndexOutOfBounds

  /** The status of the error for two kinds in one query: non-retryable `BAD_REQUEST`. */
  const MultiTypesStatus := StatusError(NonRetryable, BadRequest, StatusReason)

  /** The n-th generated name, `"$jp" + n`. */
  function ArgName(n: nat): (r: string)
    ensures StartsWith(r, JdbcArgPrefix)
  {
    JdbcArgPrefix + NatToString(n)
  }

  /** Concatenation of the appended pieces. */
  function Concat(pieces: seq<string>): string
  {
    if pieces == [] then "" else Concat(pieces[..|pieces| - 1]) + pieces[|pieces| - 1]
  }

  /** `setQueryType(type)`: the new kind and the outcome. */
  function SetQueryTypeSpec(current: Option<QueryType>, t: QueryType): (Option<QueryType>, Result<(), BuilderError>)
  {
    if current.Some? && current.value != t then (current, Err(MultipleQueryTypes(current.value, t, MultiTypesStatus)))
    else (Some(t), Ok(()))
  }

  /** `getQueryType()` */
  function QueryTypeOf(current: Option<QueryType>): QueryType
  {
    if current.Some? then current.value else DataQuery
  }

  class YdbQueryBuilder {
    const origin: string
    var query: string
    var args: seq<string>
    var argsCounter: nat
    var currentType: Option<QueryType>
    /** The pieces appended so far, and the number each generated name carries. */
    ghost var pieces: seq<string>
    ghost var argNumbers: seq<nat>

    /** The built text is the appended pieces in order; every generated name is `"$jp" + n`
        for an n no greater than the counter, absent from the original text, and the numbers
        increase in generation order. */
    ghost predicate Valid()
      reads this
    {
      query == Concat(pieces)
      && |args| == |argNumbers|
      && (forall i :: 0 <= i < |args| ==> args[i] == ArgName(argNumbers[i]) && !Contains(origin, args[i]))
      && (forall i :: 0 <= i < |argNumbers| ==> 1 <= argNumbers[i] <= argsCounter)
      && (forall i, j :: 0 <= i < j < |argNumbers| ==> argNumbers[i] < argNumbers[j])
    }

    constructor (origin: string)
      ensures Valid()
      ensures this.origin == origin && query == "" && args == [] && argsCounter == 0 && currentType.None?
      ensures pieces == []
    {
      this.origin := origin;
      query := "";
      args := [];
      argsCounter := 0;
      currentType := None;
      pieces := [];
      argNumbers := [];
    }

    /** `createNextArgName()`: the next number above the counter whose name does not occur in
        the original text. The search ends because a name longer than the text cannot occur
        in it. */
    method CreateNextArgName() returns (next: string)
      requires Valid()
      modifies this
      ensures Valid()
      ensures argsCounter > old(argsCounter) && next == ArgName(argsCounter)
      ensures !Contains(origin, next)
      ensures forall n :: old(argsCounter) < n < argsCounter ==> Contains(origin, ArgName(n))
      ensures args == old(args) + [next]
      ensures query == old(query) && pieces == old(pieces) && currentType == old(currentType)
    {
      var n := argsCounter;
      while true
        modifies {}
        invariant n >= argsCounter
        invariant forall m :: argsCounter < m <= n ==> Contains(origin, ArgName(m))
        decreases if n < Pow10(|origin|) then Pow10(|origin|) - n else 0
      {
        n := n + 1;
        next := ArgName(n);
        if !Contains(origin, next) {
          break;
        }
        ContainsBounded(origin, next);
        if n >= Pow10(|origin|) {
          NatToStringLonger(n, |origin|);
          assert false;
        }
      }
      AddArg(n, next);
    }

    /** Records a generated name and moves the counter to its number. */
    method AddArg(n: nat, name: string)
      requires Valid() && n > argsCounter && name == ArgName(n) && !Contains(origin, name)
      modifies this
      ensures Valid()
      ensures argsCounter == n && args == old(args) + [name]
      ensures query == old(query) && pieces == old(pieces) && currentType == old(currentType)
    {
      argsCounter := n;
      args := args + [name];
      argNumbers := argNumbers + [n];
    }

    method SetQueryType(t: QueryType) returns (r: Result<(), BuilderError>)
      requires Valid()
      modifies this
      ensures Valid()
      ensures (currentType, r) == SetQueryTypeSpec(old(currentType), t)
      ensures query == old(query) && args == old(args) && argsCounter == old(argsCounter)
    {
      if currentType.Some? && currentType.value != t {
        return Err(MultipleQueryTypes(currentType.value, t, MultiTypesStatus));
      }
      currentType := Some(t);
      return Ok(());
    }

    function GetQueryType(): (r: QueryType)
      reads this
      ensures r == QueryTypeOf(currentType)
    {
      if currentType.Some? then currentType.value else DataQuery
    }

    function GetOriginSQL(): (r: string)
      ensures r == origin
    {
      origin
    }

    function BuildYQL(): (r: string)
      requires Valid()
      reads this
      ensures r == Concat(pieces)
    {
      query
    }

    function GetIndexedArgs(): (r: seq<string>)
      reads this
      ensures r == args
    {
      args
    }

    /** `append(chars, start, end)`: `StringBuilder.append(char[], int, int)` reads its third
        argument as a length, so `end` characters from `start` are appended. */
    method AppendChars(chars: seq<char>, start: int, end: int) returns (r: Result<(), BuilderError>)
      requires Valid()
      modifies this
      ensures Valid()
      ensures r.Ok? <==> 0 <= start && 0 <= end && start + end <= |chars|
      ensures r.Ok? ==> pieces == old(pieces) + [chars[start..start + end]]
      ensures r.Err? ==> pieces == old(pieces) && query == old(query)
      ensures args == old(args) && argsCounter == old(argsCounter) && currentType == old(currentType)
    {
      if start < 0 || end < 0 || start + end > |chars| {
        return Err(IndexOutOfBounds);
      }
      AppendString(chars[start..start + end]);
      return Ok(());
    }

    method AppendChar(ch: char)
      requires Valid()
      modifies this
      ensures Valid()
      ensures pieces == old(pieces) + [[ch]]
      ensures args == old(args) && argsCounter == old(argsCounter) && currentType == old(currentType)
    {
      AppendString([ch]);
    }

    method AppendString(s: string)
      requires Valid()
      modifies this
      ensures Valid()
      ensures pieces == old(pieces) + [s]
      ensures args == old(args) && argsCounter == old(argsCounter) && currentType == old(currentType)
    {
      assert (pieces + [s])[..|pieces|] == pieces;
      query := query + s;
      pieces := pieces + [s];
    }
  }

  // ---- properties ----

  /** Different numbers give different names. */
  lemma ArgNameInjective(a: nat, b: nat)
    requires ArgName(a) == ArgName(b)
    ensures a == b
  {
    assert ArgName(a)[|JdbcArgPrefix|..] == NatToString(a);
    assert ArgName(b)[|JdbcArgPrefix|..] == NatToString(b);
    NatToStringInjective(a, b);
  }

  /** The names a builder generated are pairwise distinct. */
  lemma ArgsDistinct(b: YdbQueryBuilder)
    requires b.Valid()
    ensures forall i, j :: 0 <= i < j < |b.args| ==> b.args[i] != b.args[j]
  {
    forall i, j | 0 <= i < j < |b.args|
      ensures b.args[i] != b.args[j]
    {
      if b.args[i] == b.args[j] {
        ArgNameInjective(b.argNumbers[i], b.argNumbers[j]);
      }
    }
  }

  /** A text without `"$jp"` contains no generated name, so names are numbered 1, 2, …
      without gaps: the first two are `"$jp1"` and `"$jp2"`. */
  lemma NoCollisionWithoutPrefix(origin: string, n: nat)
    requires !Contains(origin, JdbcArgPrefix)
    ensures !Contains(origin, ArgName(n))
    ensures ArgName(1) == "$jp1" && ArgName(2) == "$jp2"
  {
    if Contains(origin, ArgName(n)) {
      ContainsPrefixOf(origin, JdbcArgPrefix, NatToString(n));
    }
  }

  /** The built text is the pieces in the order they were appended. */
  lemma {:induction false} ConcatAppend(pieces: seq<string>, more: seq<string>)
    ensures Concat(pieces + more) == Concat(pieces) + Concat(more)
    decreases |more|
  {
    if more == [] {
      assert pieces + more == pieces;
    } else {
      var last := more[|more| - 1];
      assert (pieces + more)[..|pieces + more| - 1] == pieces + more[..|more| - 1];
      ConcatAppend(pieces, more[..|more| - 1]);
    }
  }

  /** A query may have one kind: setting it again to the same kind is accepted, a different
      kind is refused with a non-retryable `BAD_REQUEST` and keeps the kind; without a kind
      the query is a data query. */
  lemma QueryTypeConflicts(current: Option<QueryType>, t: QueryType)
    ensures SetQueryTypeSpec(current, t).1.Ok? <==> current.None? || current.value == t
    ensures SetQueryTypeSpec(current, t).1.Ok? ==> QueryTypeOf(SetQueryTypeSpec(current, t).0) == t
    ensures SetQueryTypeSpec(current, t).1.Err? ==>
              SetQueryTypeSpec(current, t).0 == current
              && SetQueryTypeSpec(current, t).1.error.status.category == NonRetryable
              && SetQueryTypeSpec(current, t).1.error.status.code == BadRequest
    ensures SetQueryTypeSpec(SetQueryTypeSpec(current, t).0, t) == SetQueryTypeSpec(current, t)
              || SetQueryTypeSpec(current, t).1.Err?
    ensures QueryTypeOf(None) == DataQuery
  {
  }
}
