/** The driver's query kinds and the comment prefixes that select them
    (`tech.ydb.jdbc.impl.QueryType`). */
module QueryTypes {
  import opened Strings

  /** The four constants, in declaration order. */
  datatype QueryType = SchemeQuery | DataQuery | ScanQuery | ExplainQuery

  /** `getPrefix()` */
  function Prefix(t: QueryType): string
  {
    match t
    case SchemeQuery => "--jdbc:SCHEME"
    case DataQuery => "--jdbc:DATA"
    case ScanQuery => "--jdbc:SCAN"
    case ExplainQuery => "--jdbc:EXPLAIN"
  }

  /** `QueryType.values()`: every constant exactly once, in declaration order. */
  function Values(): (r: seq<QueryType>)
    ensures |r| == 4
    ensures forall i, j :: 0 <= i < j < |r| ==> r[i] != r[j]
  {
    [SchemeQuery, DataQuery, ScanQuery, ExplainQuery]
  }

  /** Position of a constant in `values()`. */
  function Ordinal(t: QueryType): (k: nat)
    ensures k < |Values()| && Values()[k] == t
  {
    match t
    case SchemeQuery => 0
    case DataQuery => 1
    case ScanQuery => 2
    case ExplainQuery => 3
  }

  /** `prefixes()`: the prefix of every constant, in declaration order. */
  function Prefixes(): (r: seq<string>)
    ensures |r| == |Values()|
    ensures forall i :: 0 <= i < |r| ==> r[i] == Prefix(Values()[i])
  {
    seq(|Values()|, i requires 0 <= i < |Values()| => Prefix(Values()[i]))
  }

  /** Each prefix has a '-' only in its first two positions. */
  lemma DashesLead(t: QueryType)
    ensures |Prefix(t)| > 7 && Prefix(t)[..7] == "--jdbc:"
    ensures forall k :: 2 <= k < |Prefix(t)| ==> Prefix(t)[k] != '-'
  {
  }

  /** The three characters after "--jdbc:", which tell the prefixes apart. */
  function Key(t: QueryType): (k: string)
    ensures k == Prefix(t)[7..10]
  {
    match t
    case SchemeQuery => "SCH"
    case DataQuery => "DAT"
    case ScanQuery => "SCA"
    case ExplainQuery => "EXP"
  }

  lemma KeyInjective(t: QueryType, u: QueryType)
    requires Key(t) == Key(u)
    ensures t == u
  {
  }

  /** An occurrence of a string starting with "--" inside a prefix is at position 0. */
  lemma OccursAtStart(t: QueryType, sub: string, i: nat)
    requires |sub| >= 2 && sub[..2] == "--"
    requires i + |sub| <= |Prefix(t)| && Prefix(t)[i..i + |sub|] == sub
    ensures i == 0
  {
    DashesLead(t);
    assert Prefix(t)[i + 1] == sub[1] == '-';
  }

  /** No prefix occurs inside the prefix of another constant; in particular the four
      prefixes are pairwise distinct. */
  lemma PrefixesIndependent(t: QueryType, u: QueryType)
    ensures Contains(Prefix(t), Prefix(u)) <==> t == u
  {
    assert StartsWith(Prefix(t), Prefix(t));
    if Contains(Prefix(t), Prefix(u)) {
      var i := ContainsWitness(Prefix(t), Prefix(u));
      DashesLead(u);
      OccursAtStart(t, Prefix(u), i);
      assert Prefix(t)[..|Prefix(u)|] == Prefix(u);
      assert Prefix(t)[7..10] == Prefix(u)[7..10];
      KeyInjective(t, u);
    }
  }

  lemma PrefixesDistinct()
    ensures forall i, j :: 0 <= i < j < |Prefixes()| ==> Prefixes()[i] != Prefixes()[j]
  {
    forall i, j | 0 <= i < j < |Prefixes()|
      ensures Prefixes()[i] != Prefixes()[j]
    {
      var t, u := Values()[i], Values()[j];
      PrefixesIndependent(u, t);
      assert StartsWith(Prefix(t), Prefix(t));
    }
  }
}
