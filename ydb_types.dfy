/** The mapping between YDB column types, JDBC type codes and Java classes
    (`tech.ydb.jdbc.impl.YdbTypesImpl`): the four lookup tables its constructor fills, the
    invariant `selfValidate` checks between two of them, and the conversions read from them. */
module YdbTypes {
  import opened Wrappers
  import opened Strings

  /** `tech.ydb.table.values.PrimitiveType`, in declaration (ordinal) order. */
  datatype PrimitiveType =
    | Bool | Int8 | Uint8 | Int16 | Uint16 | Int32 | Uint32 | Int64 | Uint64
    | Float | Double | Bytes | Text | Yson | Json | Uuid
    | Date | Datetime | Timestamp | Interval | TzDate | TzDatetime | TzTimestamp
    | JsonDocument | DyNumber

  /** A YDB type as far as the driver distinguishes it by `Type.getKind()`: primitive,
      decimal, optional, and every other kind (lists, structs, tuples, ...). */
  datatype YdbType =
    | Primitive(p: PrimitiveType)
    | Decimal(precision: nat, scale: nat)
    | Optional(inner: YdbType)
    | OtherKind

  /** The Java classes that `typeByClass` knows, and every other class. */
  datatype JavaClass =
    | StringClass | LongPrimitive | LongClass | BigIntegerClass | BytePrimitive | ByteClass
    | ShortPrimitive | ShortClass | IntPrimitive | IntegerClass | FloatPrimitive | FloatClass
    | DoublePrimitive | DoubleClass | BooleanPrimitive | BooleanClass | ByteArrayClass
    | UtilDateClass | SqlDateClass | LocalDateClass | LocalDateTimeClass | SqlTimeClass
    | LocalTimeClass | SqlTimestampClass | InstantClass | DecimalValueClass | BigDecimalClass
    | DurationClass
    | OtherClass

  // ---- constants of java.sql.Types and of the driver ----

  const VARCHAR := 12
  const BIGINT := -5
  const TINYINT := -6
  const SMALLINT := 5
  const INTEGER := 4
  const REAL := 7
  const FLOAT := 6
  const DOUBLE := 8
  const BIT := -7
  const BOOLEAN := 16
  const BINARY := -2
  const VARBINARY := -3
  const DATE := 91
  const TIME := 92
  const TIMESTAMP := 93
  const TIMESTAMP_WITH_TIMEZONE := 2014
  const DECIMAL := 3
  const NUMERIC := 2
  const JAVA_OBJECT := 2000

  /** Wrapped primitive codes start here ... */
  const SqlKindPrimitive := 10000
  /** ... and stop before the wrapped decimal code. */
  const SqlKindDecimal := 16384
  /** `Integer.MIN_VALUE`: "no type". */
  const UnknownSqlType := -2147483648
  const OptionalTypeSuffix := "?"
  const MaxColumnSize := 8 * 1024 * 1024

  /** `YdbTypes.DEFAULT_DECIMAL_TYPE` */
  const DefaultDecimal := Decimal(22, 9)
  /** Its `toString()`. */
  const DefaultDecimalName := "Decimal(22, 9)"

  /** `PrimitiveType.values()` */
  function AllPrimitives(): (r: seq<PrimitiveType>)
    ensures |r| == 25
  {
    [Bool, Int8, Uint8, Int16, Uint16, Int32, Uint32, Int64, Uint64,
     Float, Double, Bytes, Text, Yson, Json, Uuid,
     Date, Datetime, Timestamp, Interval, TzDate, TzDatetime, TzTimestamp,
     JsonDocument, DyNumber]
  }

  /** `ordinal()`: the position of the constant in `values()`. */
  function Ordinal(p: PrimitiveType): (k: nat)
    ensures k < |AllPrimitives()| && AllPrimitives()[k] == p
  {
    match p
    case Bool => 0 case Int8 => 1 case Uint8 => 2 case Int16 => 3 case Uint16 => 4
    case Int32 => 5 case Uint32 => 6 case Int64 => 7 case Uint64 => 8 case Float => 9
    case Double => 10 case Bytes => 11 case Text => 12 case Yson => 13 case Json => 14
    case Uuid => 15 case Date => 16 case Datetime => 17 case Timestamp => 18
    case Interval => 19 case TzDate => 20 case TzDatetime => 21 case TzTimestamp => 22
    case JsonDocument => 23 case DyNumber => 24
  }

  /** `toString()` of a primitive type: the constant's name. */
  function PrimitiveName(p: PrimitiveType): string
  {
    match p
    case Bool => "Bool" case Int8 => "Int8" case Uint8 => "Uint8" case Int16 => "Int16"
    case Uint16 => "Uint16" case Int32 => "Int32" case Uint32 => "Uint32"
    case Int64 => "Int64" case Uint64 => "Uint64" case Float => "Float"
    case Double => "Double" case Bytes => "Bytes" case Text => "Text" case Yson => "Yson"
    case Json => "Json" case Uuid => "Uuid" case Date => "Date" case Datetime => "Datetime"
    case Timestamp => "Timestamp" case Interval => "Interval" case TzDate => "TzDate"
    case TzDatetime => "TzDatetime" case TzTimestamp => "TzTimestamp"
    case JsonDocument => "JsonDocument" case DyNumber => "DyNumber"
  }

  /** Distinct constants have distinct names. */
  lemma PrimitiveNameInjective(p: PrimitiveType, q: PrimitiveType)
    requires PrimitiveName(p) == PrimitiveName(q)
    ensures p == q
  {
  }

  /** No primitive is named like a legacy name, the default decimal or an optional type. */
  lemma PrimitiveNamesReserved(p: PrimitiveType)
    ensures PrimitiveName(p) !in {"String", "Utf8", DefaultDecimalName}
    ensures !EndsWith(PrimitiveName(p), OptionalTypeSuffix)
  {
  }

  // ---- the four tables, as the constructor leaves them ----

  /** The switch that fills `sqlTypeByPrimitiveNumId`. */
  function SqlTypeOfPrimitive(p: PrimitiveType): int
  {
    match p
    case Text | Json | JsonDocument | Uuid => VARCHAR
    case Bytes | Yson => BINARY
    case Bool => BOOLEAN
    case Int8 | Int16 => SMALLINT
    case Uint8 | Int32 | Uint16 => INTEGER
    case Uint32 | Int64 | Uint64 | Interval => BIGINT
    case Float => FLOAT
    case Double => DOUBLE
    case Date => DATE
    case Datetime => TIME
    case Timestamp => TIMESTAMP
    case TzDate | TzDatetime | TzTimestamp => TIMESTAMP_WITH_TIMEZONE
    case _ => JAVA_OBJECT
  }

  /** `sqlTypeByPrimitiveNumId` after the loop has put the constants `ps`. */
  function SqlTypesOf(ps: seq<PrimitiveType>): map<PrimitiveType, int>
  {
    if ps == [] then map[]
    else SqlTypesOf(ps[..|ps| - 1])[ps[|ps| - 1] := SqlTypeOfPrimitive(ps[|ps| - 1])]
  }

  /** The keys are the constants put, each with its switch value. */
  lemma {:induction false} SqlTypesOfLookup(ps: seq<PrimitiveType>)
    ensures forall p :: p in SqlTypesOf(ps) <==> p in ps
    ensures forall p :: p in SqlTypesOf(ps) ==> SqlTypesOf(ps)[p] == SqlTypeOfPrimitive(p)
  {
    if ps != [] {
      var init := ps[..|ps| - 1];
      SqlTypesOfLookup(init);
      assert ps == init + [ps[|ps| - 1]];
    }
  }

  /** `Ordinal` is the inverse of indexing `values()`. */
  lemma OrdinalOfValues(i: nat)
    requires i < |AllPrimitives()|
    ensures Ordinal(AllPrimitives()[i]) == i
  {
  }

  /** The whole `sqlTypeByPrimitiveNumId`: one entry per constant. */
  function SqlTypeByPrimitiveTable(): map<PrimitiveType, int>
  {
    SqlTypesOf(AllPrimitives())
  }

  /** `typeBySqlType` */
  function TypeBySqlTable(): map<int, YdbType>
  {
    map[VARCHAR := Primitive(Text), BIGINT := Primitive(Int64), TINYINT := Primitive(Int8),
        SMALLINT := Primitive(Int16), INTEGER := Primitive(Int32), REAL := Primitive(Float),
        FLOAT := Primitive(Float), DOUBLE := Primitive(Double), BIT := Primitive(Bool),
        BOOLEAN := Primitive(Bool), BINARY := Primitive(Bytes), VARBINARY := Primitive(Bytes),
        DATE := Primitive(Date), TIME := Primitive(Datetime), TIMESTAMP := Primitive(Timestamp),
        TIMESTAMP_WITH_TIMEZONE := Primitive(TzTimestamp), DECIMAL := DefaultDecimal,
        NUMERIC := DefaultDecimal]
  }

  /** `typeByClass` */
  function TypeByClassTable(): map<JavaClass, YdbType>
  {
    map[StringClass := Primitive(Text), LongPrimitive := Primitive(Int64),
        LongClass := Primitive(Int64), BigIntegerClass := Primitive(Int64),
        BytePrimitive := Primitive(Int8), ByteClass := Primitive(Int8),
        ShortPrimitive := Primitive(Int16), ShortClass := Primitive(Int16),
        IntPrimitive := Primitive(Int32), IntegerClass := Primitive(Int32),
        FloatPrimitive := Primitive(Float), FloatClass := Primitive(Float),
        DoublePrimitive := Primitive(Double), DoubleClass := Primitive(Double),
        BooleanPrimitive := Primitive(Bool), BooleanClass := Primitive(Bool),
        ByteArrayClass := Primitive(Bytes), UtilDateClass := Primitive(Timestamp),
        SqlDateClass := Primitive(Date), LocalDateClass := Primitive(Date),
        LocalDateTimeClass := Primitive(Datetime), SqlTimeClass := Primitive(Datetime),
        LocalTimeClass := Primitive(Datetime), SqlTimestampClass := Primitive(Timestamp),
        InstantClass := Primitive(Timestamp), DecimalValueClass := DefaultDecimal,
        BigDecimalClass := DefaultDecimal, DurationClass := Primitive(Interval)]
  }

  /** `typeByTypeName` after the loop has put the names of the constants `ps`. */
  function NamesOf(ps: seq<PrimitiveType>): map<string, YdbType>
  {
    if ps == [] then map[]
    else NamesOf(ps[..|ps| - 1])[PrimitiveName(ps[|ps| - 1]) := Primitive(ps[|ps| - 1])]
  }

  /** The names put are exactly those of the constants `ps`, each mapped to its own constant:
      since names are distinct, no later name overwrites an earlier one. */
  lemma {:induction false} NamesOfLookup(ps: seq<PrimitiveType>)
    ensures forall p :: PrimitiveName(p) in NamesOf(ps) <==> p in ps
    ensures forall p :: p in ps ==> NamesOf(ps)[PrimitiveName(p)] == Primitive(p)
    ensures forall s :: s in NamesOf(ps) ==> exists p :: p in ps && PrimitiveName(p) == s
  {
    if ps != [] {
      var init, q := ps[..|ps| - 1], ps[|ps| - 1];
      NamesOfLookup(init);
      assert ps == init + [q];
      forall p ensures PrimitiveName(p) in NamesOf(ps) <==> p in ps {
        if PrimitiveName(p) == PrimitiveName(q) {
          PrimitiveNameInjective(p, q);
        }
      }
      forall p | p in ps ensures NamesOf(ps)[PrimitiveName(p)] == Primitive(p) {
        if PrimitiveName(p) == PrimitiveName(q) {
          PrimitiveNameInjective(p, q);
        }
      }
    }
  }

  /** The whole `typeByTypeName`: every constant's name, the default decimal's name and the
      two deprecated names. */
  function TypeByNameTable(): map<string, YdbType>
  {
    NamesOf(AllPrimitives())[DefaultDecimalName := DefaultDecimal]
      ["String" := Primitive(Bytes)]["Utf8" := Primitive(Text)]
  }

  /** `selfValidate`'s invariant: every code of `sqlTypeByPrimitiveNumId` other than
      `JAVA_OBJECT` is a key of `typeBySqlType`. */
  ghost predicate SelfValid(sqlTypeByPrimitive: map<PrimitiveType, int>, typeBySqlType: map<int, YdbType>)
  {
    forall p :: p in sqlTypeByPrimitive ==>
      sqlTypeByPrimitive[p] == JAVA_OBJECT || sqlTypeByPrimitive[p] in typeBySqlType
  }

  /** The tables the constructor builds pass `selfValidate`. */
  lemma TablesSelfValid()
    ensures SelfValid(SqlTypeByPrimitiveTable(), TypeBySqlTable())
  {
    SqlTypesOfLookup(AllPrimitives());
    forall p | p in SqlTypeByPrimitiveTable()
      ensures SqlTypeByPrimitiveTable()[p] == JAVA_OBJECT || SqlTypeByPrimitiveTable()[p] in TypeBySqlTable()
    {
      PrimitiveCodeRegistered(p);
    }
  }

  /** The code of each primitive, unless `JAVA_OBJECT`, is a key of `typeBySqlType`. */
  lemma PrimitiveCodeRegistered(p: PrimitiveType)
    ensures SqlTypeOfPrimitive(p) == JAVA_OBJECT || SqlTypeOfPrimitive(p) in TypeBySqlTable()
  {
  }

  /** The singleton that holds the four tables. */
  class TypesRegistry {
    var typeBySqlType: map<int, YdbType>
    var sqlTypeByPrimitive: map<PrimitiveType, int>
    var typeByClass: map<JavaClass, YdbType>
    var typeByTypeName: map<string, YdbType>

    /** Fills the tables (two of them by a loop over `values()`) and validates them. */
    constructor ()
      ensures typeByTypeName == TypeByNameTable()
      ensures typeBySqlType == TypeBySqlTable()
      ensures typeByClass == TypeByClassTable()
      ensures sqlTypeByPrimitive == SqlTypeByPrimitiveTable()
      ensures SelfValid(sqlTypeByPrimitive, typeBySqlType)
    {
      var values := AllPrimitives();
      var names: map<string, YdbType> := map[];
      var i := 0;
      while i < |values|
        invariant 0 <= i <= |values|
        invariant names == NamesOf(values[..i])
      {
        assert values[..i + 1][..i] == values[..i];
        names := names[PrimitiveName(values[i]) := Primitive(values[i])];
        i := i + 1;
      }
      assert values[..i] == values;
      names := names[DefaultDecimalName := DefaultDecimal];
      names := names["String" := Primitive(Bytes)];
      names := names["Utf8" := Primitive(Text)];
      typeByTypeName := names;
      typeBySqlType := TypeBySqlTable();
      typeByClass := TypeByClassTable();
      var sqlTypes: map<PrimitiveType, int> := map[];
      i := 0;
      while i < |values|
        invariant 0 <= i <= |values|
        invariant sqlTypes == SqlTypesOf(values[..i])
      {
        assert values[..i + 1][..i] == values[..i];
        sqlTypes := sqlTypes[values[i] := SqlTypeOfPrimitive(values[i])];
        i := i + 1;
      }
      assert values[..i] == values;
      sqlTypeByPrimitive := sqlTypes;
      new;
      var ok := SelfValidate();
      TablesSelfValid();
    }

    /** `selfValidate()`: `true` when it returns, `false` when it throws. */
    method SelfValidate() returns (ok: bool)
      ensures ok <==> SelfValid(sqlTypeByPrimitive, typeBySqlType)
    {
      var values := AllPrimitives();
      var i := 0;
      while i < |values|
        invariant 0 <= i <= |values|
        invariant forall p :: Ordinal(p) < i && p in sqlTypeByPrimitive ==>
                    sqlTypeByPrimitive[p] == JAVA_OBJECT || sqlTypeByPrimitive[p] in typeBySqlType
      {
        var p := values[i];
        OrdinalOfValues(i);
        if p in sqlTypeByPrimitive {
          var sqlType := sqlTypeByPrimitive[p];
          if sqlType != JAVA_OBJECT && sqlType !in typeBySqlType {
            return false;
          }
        }
        i := i + 1;
      }
      return true;
    }
  }

  // ---- conversions ----

  /** The failures of the conversions: `values()[idType]` past the end of the array. */
  datatype TypeError = IndexOutOfBounds(index: int)

  /** The type with every `Optional` layer removed. */
  function Base(t: YdbType): (b: YdbType)
    ensures !b.Optional?
  {
    if t.Optional? then Base(t.inner) else t
  }

  /** `wrapYdbJdbcType(type)`: a primitive becomes `SQL_KIND_PRIMITIVE` plus its ordinal, a
      decimal `Types.DECIMAL`, an optional type is wrapped like its content, anything else
      is `JAVA_OBJECT`. */
  function Wrap(t: YdbType): (r: int)
    ensures SqlKindPrimitive <= r < SqlKindDecimal <==> Base(t).Primitive?
    ensures Base(t).Primitive? ==> r == SqlKindPrimitive + Ordinal(Base(t).p)
    ensures Base(t).Decimal? <==> r == DECIMAL
    ensures Base(t).OtherKind? <==> r == JAVA_OBJECT
  {
    match t
    case Primitive(p) => SqlKindPrimitive + Ordinal(p)
    case Decimal(_, _) => DECIMAL
    case Optional(inner) => Wrap(inner)
    case OtherKind => JAVA_OBJECT
  }

  /** `unwrapYdbJdbcType(sqlType)`: a wrapped primitive code becomes the standard code of
      the primitive; every other code is returned as it is. */
  function Unwrap(sqlType: int): (r: Result<int, TypeError>)
    ensures !(SqlKindPrimitive <= sqlType < SqlKindDecimal) ==> r == Ok(sqlType)
    ensures SqlKindPrimitive <= sqlType < SqlKindDecimal ==>
              (r.Err? <==> sqlType - SqlKindPrimitive >= |AllPrimitives()|)
    ensures r.Ok? && SqlKindPrimitive <= sqlType < SqlKindDecimal ==>
              r.value == SqlTypeOfPrimitive(AllPrimitives()[sqlType - SqlKindPrimitive])
  {
    if SqlKindPrimitive <= sqlType < SqlKindDecimal then
      var idType := sqlType - SqlKindPrimitive;
      if idType >= |AllPrimitives()| then Err(IndexOutOfBounds(idType))
      else
        var p := AllPrimitives()[idType];
        SqlTypesOfLookup(AllPrimitives());
        if p in SqlTypeByPrimitiveTable() then Ok(SqlTypeByPrimitiveTable()[p])
        else assert false; Ok(0)
    else Ok(sqlType)
  }

  /** `toYdbType(int sqlType)`: `None` stands for `null`. */
  function ToYdbTypeOfCode(sqlType: int): (r: Result<Option<YdbType>, TypeError>)
    ensures sqlType == UnknownSqlType ==> r == Ok(None)
    ensures r.Err? <==> SqlKindPrimitive + |AllPrimitives()| <= sqlType < SqlKindDecimal
    ensures sqlType == SqlKindDecimal || sqlType == DECIMAL ==> r == Ok(Some(DefaultDecimal))
    ensures SqlKindPrimitive <= sqlType < SqlKindPrimitive + |AllPrimitives()| ==>
      r == Ok(Some(Primitive(AllPrimitives()[sqlType - SqlKindPrimitive])))
  {
    if sqlType == UnknownSqlType then Ok(None)
    else if SqlKindPrimitive <= sqlType < SqlKindDecimal then
      var idType := sqlType - SqlKindPrimitive;
      if idType >= |AllPrimitives()| then Err(IndexOutOfBounds(idType))
      else Ok(Some(Primitive(AllPrimitives()[idType])))
    else if sqlType == SqlKindDecimal || sqlType == DECIMAL then Ok(Some(DefaultDecimal))
    else if sqlType in TypeBySqlTable() then Ok(Some(TypeBySqlTable()[sqlType]))
    else Ok(None)
  }

  /** `toSqlType(type)`: unwrap after wrap, the standard code of the type. */
  function ToSqlType(t: YdbType): (r: int)
    ensures Base(t).Primitive? ==> r == SqlTypeOfPrimitive(Base(t).p)
    ensures Base(t).Decimal? ==> r == DECIMAL
    ensures Base(t).OtherKind? ==> r == JAVA_OBJECT
  {
    SqlTypesOfLookup(AllPrimitives());
    var u := Unwrap(Wrap(t));
    if u.Ok? then u.value else assert false; 0
  }

  /** `toWrappedSqlType(Class)`: the wrapped code of the class's type, or
      `UNKNOWN_SQL_TYPE` for a class that is not in the table. */
  function ToWrappedSqlType(c: JavaClass): (r: int)
    ensures c !in TypeByClassTable() ==> r == UnknownSqlType
    ensures c in TypeByClassTable() ==> r == Wrap(TypeByClassTable()[c])
  {
    if c in TypeByClassTable() then Wrap(TypeByClassTable()[c]) else UnknownSqlType
  }

  /** `toYdbType(Class)`: the type through its wrapped code. */
  function ToYdbTypeOfClass(c: JavaClass): Result<Option<YdbType>, TypeError>
  {
    ToYdbTypeOfCode(ToWrappedSqlType(c))
  }

  /** `toYdbType(String typeName)`: a name ending in the optional suffix yields the optional
      of the type named by the rest, or `None` when that is unknown. */
  function ToYdbTypeOfName(typeName: string): (r: Option<YdbType>)
    ensures EndsWith(typeName, OptionalTypeSuffix) ==> r.None? || r.value.Optional?
    ensures !EndsWith(typeName, OptionalTypeSuffix) ==>
              r == (if typeName in TypeByNameTable() then Some(TypeByNameTable()[typeName]) else None)
  {
    if EndsWith(typeName, OptionalTypeSuffix) then
      var baseName := typeName[..|typeName| - |OptionalTypeSuffix|];
      if baseName in TypeByNameTable() then Some(Optional(TypeByNameTable()[baseName])) else None
    else if typeName in TypeByNameTable() then Some(TypeByNameTable()[typeName])
    else None
  }

  /** `getSqlPrecision(PrimitiveType)`; the date and time cases are the lengths of their
      widest text forms. */
  function PrimitivePrecision(p: PrimitiveType): nat
  {
    match p
    case Bool | Int8 | Uint8 => 1
    case Int16 | Uint16 => 2
    case Int32 | Uint32 | Float => 4
    case Int64 | Uint64 | Double | Interval => 8
    case Bytes | Text | Yson | Json | JsonDocument => MaxColumnSize
    case Uuid => 8 + 8
    case Date => |"0000-00-00"|
    case Datetime => |"0000-00-00 00:00:00"|
    case Timestamp => |"0000-00-00T00:00:00.000000"|
    case TzDate => |"0000-00-00+00:00"|
    case TzDatetime => |"0000-00-00 00:00:00+00:00"|
    case TzTimestamp => |"0000-00-00T00:00:00.000000+00:00"|
    case _ => 0
  }

  /** `getSqlPrecision(Type)` */
  function SqlPrecision(t: YdbType): (r: nat)
    ensures Base(t).Decimal? ==> r == 16
    ensures Base(t).OtherKind? ==> r == 0
    ensures Base(t).Primitive? ==> r == PrimitivePrecision(Base(t).p)
  {
    match t
    case Optional(inner) => SqlPrecision(inner)
    case Decimal(_, _) => 8 + 8
    case Primitive(p) => PrimitivePrecision(p)
    case OtherKind => 0
  }

  // ---- properties ----

  /** A wrapped primitive code converts back to its primitive, whatever optional layers the
      type had; a decimal of any precision comes back as the default decimal; any other kind
      has no type. */
  lemma WrapRoundTrip(t: YdbType)
    ensures Base(t).Primitive? ==> ToYdbTypeOfCode(Wrap(t)) == Ok(Some(Base(t)))
    ensures Base(t).Decimal? ==> ToYdbTypeOfCode(Wrap(t)) == Ok(Some(DefaultDecimal))
    ensures Base(t).OtherKind? ==> ToYdbTypeOfCode(Wrap(t)) == Ok(None)
  {
  }

  /** Every wrapped code in the primitive range is the wrap of exactly one primitive. */
  lemma WrapInjectiveOnPrimitives(p: PrimitiveType, q: PrimitiveType)
    requires Wrap(Primitive(p)) == Wrap(Primitive(q))
    ensures p == q
  {
    assert AllPrimitives()[Ordinal(p)] == p && AllPrimitives()[Ordinal(q)] == q;
  }

  /** A key of `typeBySqlType` other than the two decimal codes is looked up in the table. */
  lemma TableCodeLookup(c: int)
    requires c in TypeBySqlTable() && c != DECIMAL
    ensures ToYdbTypeOfCode(c) == Ok(Some(TypeBySqlTable()[c]))
  {
    assert -7 <= c <= 2014;
  }

  /** `typeBySqlType` inverts the primitive switch on its image: the type registered for
      the code of a primitive is a primitive with that same code. */
  lemma TableInvertsSwitch(p: PrimitiveType)
    requires SqlTypeOfPrimitive(p) != JAVA_OBJECT
    ensures SqlTypeOfPrimitive(p) in TypeBySqlTable()
    ensures TypeBySqlTable()[SqlTypeOfPrimitive(p)].Primitive?
    ensures SqlTypeOfPrimitive(TypeBySqlTable()[SqlTypeOfPrimitive(p)].p) == SqlTypeOfPrimitive(p)
  {
  }

  /** The standard codes that primitives map to convert back to a primitive of the same
      standard code. */
  lemma StandardCodeRoundTrip(p: PrimitiveType) returns (q: PrimitiveType)
    requires SqlTypeOfPrimitive(p) != JAVA_OBJECT
    ensures ToYdbTypeOfCode(SqlTypeOfPrimitive(p)) == Ok(Some(Primitive(q)))
    ensures SqlTypeOfPrimitive(q) == SqlTypeOfPrimitive(p)
  {
    var c := SqlTypeOfPrimitive(p);
    TableInvertsSwitch(p);
    TableCodeLookup(c);
    q := TypeBySqlTable()[c].p;
  }

  /** Converting a type to its standard code and back gives a type of the same standard code
      (except for `JAVA_OBJECT`, which has no type). */
  lemma ToSqlTypeResolves(t: YdbType)
    requires ToSqlType(t) != JAVA_OBJECT
    ensures ToYdbTypeOfCode(ToSqlType(t)).Ok?
    ensures ToYdbTypeOfCode(ToSqlType(t)).value.Some?
    ensures ToSqlType(ToYdbTypeOfCode(ToSqlType(t)).value.value) == ToSqlType(t)
  {
    if Base(t).Primitive? {
      var q := StandardCodeRoundTrip(Base(t).p);
    } else {
      assert Base(t).Decimal?;
      assert ToYdbTypeOfCode(DECIMAL) == Ok(Some(DefaultDecimal));
    }
  }

  /** Unknown classes get `UNKNOWN_SQL_TYPE` and no type; known classes get their table type
      without optional layers (the table has none). */
  lemma ClassLookup(c: JavaClass)
    ensures c !in TypeByClassTable() ==>
              ToWrappedSqlType(c) == UnknownSqlType && ToYdbTypeOfClass(c) == Ok(None)
    ensures c in TypeByClassTable() && TypeByClassTable()[c].Primitive? ==>
              ToYdbTypeOfClass(c) == Ok(Some(TypeByClassTable()[c]))
    ensures c in TypeByClassTable() && TypeByClassTable()[c].Decimal? ==>
              ToYdbTypeOfClass(c) == Ok(Some(DefaultDecimal))
  {
    if c in TypeByClassTable() {
      WrapRoundTrip(TypeByClassTable()[c]);
    }
  }

  /** Every class the table names is mapped, to a primitive or the default decimal. */
  lemma ClassTableDomain(c: JavaClass)
    ensures c in TypeByClassTable() <==> c != OtherClass
    ensures c in TypeByClassTable() ==>
              TypeByClassTable()[c].Primitive? || TypeByClassTable()[c] == DefaultDecimal
  {
  }

  /** The table entry of a primitive's name is that primitive. */
  lemma NameInTable(p: PrimitiveType)
    ensures PrimitiveName(p) in TypeByNameTable()
    ensures TypeByNameTable()[PrimitiveName(p)] == Primitive(p)
  {
    var n := PrimitiveName(p);
    var base := NamesOf(AllPrimitives());
    NamesOfLookup(AllPrimitives());
    assert p in AllPrimitives() by { assert AllPrimitives()[Ordinal(p)] == p; }
    assert n in base && base[n] == Primitive(p);
    PrimitiveNamesReserved(p);
    assert n != "String" && n != "Utf8" && n != DefaultDecimalName;
    assert TypeByNameTable() == base[DefaultDecimalName := DefaultDecimal]["String" := Primitive(Bytes)]["Utf8" := Primitive(Text)];
  }

  /** Every primitive is found by its name, and by its name with the optional suffix as the
      optional of itself. */
  lemma NameLookup(p: PrimitiveType)
    ensures ToYdbTypeOfName(PrimitiveName(p)) == Some(Primitive(p))
    ensures ToYdbTypeOfName(PrimitiveName(p) + OptionalTypeSuffix) == Some(Optional(Primitive(p)))
  {
    NameInTable(p);
    PrimitiveNamesReserved(p);
    OptionalSuffix(PrimitiveName(p));
  }

  /** The deprecated names and the default decimal's name resolve. */
  lemma ExtraNamesLookup()
    ensures ToYdbTypeOfName("String") == Some(Primitive(Bytes))
    ensures ToYdbTypeOfName("Utf8") == Some(Primitive(Text))
    ensures ToYdbTypeOfName(DefaultDecimalName) == Some(DefaultDecimal)
  {
    assert !EndsWith("String", OptionalTypeSuffix);
    assert !EndsWith("Utf8", OptionalTypeSuffix);
    assert !EndsWith(DefaultDecimalName, OptionalTypeSuffix);
  }

  /** The optional suffix adds one `Optional` layer to whatever the name without it denotes,
      or fails when that name is unknown. */
  lemma OptionalSuffix(name: string)
    ensures ToYdbTypeOfName(name + OptionalTypeSuffix) ==
              (if name in TypeByNameTable() then Some(Optional(TypeByNameTable()[name])) else None)
  {
    assert (name + OptionalTypeSuffix)[..|name|] == name;
  }

  /** The precision of a date or time type is the length of its widest text form. */
  lemma DateTimePrecisions()
    ensures PrimitivePrecision(Date) == 10 && PrimitivePrecision(Datetime) == 19
    ensures PrimitivePrecision(Timestamp) == 26 && PrimitivePrecision(TzDate) == 16
    ensures PrimitivePrecision(TzDatetime) == 25 && PrimitivePrecision(TzTimestamp) == 32
  {
  }

  /** Uuid and decimals take 16, a type the switch does not name 0. */
  lemma FixedPrecisions()
    ensures PrimitivePrecision(Uuid) == 16 && SqlPrecision(DefaultDecimal) == 16
    ensures PrimitivePrecision(DyNumber) == 0 && SqlPrecision(OtherKind) == 0
  {
  }

  /** An optional type has the precision of its content. */
  lemma PrecisionIgnoresOptional(t: YdbType)
    ensures SqlPrecision(Optional(t)) == SqlPrecision(t)
    ensures ToSqlType(Optional(t)) == ToSqlType(t)
    ensures Wrap(Optional(t)) == Wrap(t)
  {
  }

  // ---- the catalogue ----

  /** `getSqlTypes()`: the keys of `typeBySqlType`. */
  function GetSqlTypes(): set<int>
  {
    TypeBySqlTable().Keys
  }

  /** `getAllDatabaseTypes()`: the types the driver reports, in this order. */
  function AllDatabaseTypes(): (r: seq<YdbType>)
    ensures |r| == 21
    ensures forall i, j :: 0 <= i < j < |r| ==> r[i] != r[j]
  {
    [Primitive(Bool), Primitive(Int8), Primitive(Int16), Primitive(Int32), Primitive(Int64),
     Primitive(Uint8), Primitive(Uint16), Primitive(Uint32), Primitive(Uint64),
     Primitive(Float), Primitive(Double), Primitive(Bytes), Primitive(Text), Primitive(Json),
     Primitive(JsonDocument), Primitive(Yson), Primitive(Date), Primitive(Datetime),
     Primitive(Timestamp), Primitive(Interval), DefaultDecimal]
  }

  /** Every reported code converts to a type, and to the type registered for it. */
  lemma SqlTypesResolve(c: int)
    requires c in GetSqlTypes()
    ensures ToYdbTypeOfCode(c).Ok? && ToYdbTypeOfCode(c).value.Some?
    ensures c != DECIMAL ==> ToYdbTypeOfCode(c).value.value == TypeBySqlTable()[c]
  {
    if c != DECIMAL {
      TableCodeLookup(c);
    }
  }

  /** Each reported database type has a standard code. */
  lemma DatabaseTypesHaveCodes(t: YdbType)
    requires t in AllDatabaseTypes()
    ensures ToSqlType(t) != JAVA_OBJECT
  {
  }

  /** Each reported database type is found again by its name. */
  lemma DatabaseTypesNamed(t: YdbType)
    requires t in AllDatabaseTypes()
    ensures t.Primitive? ==> ToYdbTypeOfName(PrimitiveName(t.p)) == Some(t)
    ensures t.Decimal? ==> ToYdbTypeOfName(DefaultDecimalName) == Some(t)
  {
    if t.Primitive? {
      NameLookup(t.p);
    } else {
      ExtraNamesLookup();
    }
  }
}
