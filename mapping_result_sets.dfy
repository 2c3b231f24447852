/** Building small result sets in memory (`MappingResultSets`): `stableMap` fills an
    insertion-ordered map from a key/value list, and `readerFromList` turns a list of such
    maps into a result set message, one optional column per entry of the first map and one
    row per map. A `LinkedHashMap` is a sequence of entries with distinct keys; the message
    is its columns and rows, before it is handed to the SDK's reader. */
module MappingResultSets {
  import opened Wrappers
  import YdbTypes

  type PrimitiveType = YdbTypes.PrimitiveType

  /** The Java objects a map may hold, as far as the helper tells them apart. */
  datatype JavaValue =
    | JNull
    | JString(s: string)
    | JInteger(i: int)
    | JShort(i: int)
    | JBoolean(b: bool)
    | JOther

  /** A column named after a key; its type is `Optional<item>`. */
  datatype Column = Column(name: string, item: PrimitiveType)

  /** A value of a row: the null flag, or a text, int32 or bool value. */
  datatype Item = NullFlag | TextValue(s: string) | Int32Value(v: int) | BoolValue(b: bool)

  datatype ResultSetMessage = ResultSetMessage(columns: seq<Column>, rows: seq<seq<Item>>)

  datatype MappingError =
    | OddKeyValueList
    | UnsupportedType(value: JavaValue)

  // ---- insertion-ordered maps ----

  function Keys<K, V>(m: seq<(K, V)>): (ks: seq<K>)
    ensures |ks| == |m| && forall i :: 0 <= i < |m| ==> ks[i] == m[i].0
  {
    seq(|m|, i requires 0 <= i < |m| => m[i].0)
  }

  predicate DistinctKeys<K(==), V>(m: seq<(K, V)>)
  {
    forall i, j :: 0 <= i < j < |m| ==> m[i].0 != m[j].0
  }

  /** The position of a key, if present. */
  function IndexOf<K(==), V>(m: seq<(K, V)>, k: K): (r: Option<nat>)
    ensures r.Some? ==> r.value < |m| && m[r.value].0 == k
    ensures r.None? ==> forall i :: 0 <= i < |m| ==> m[i].0 != k
  {
    if m == [] then None
    else if m[0].0 == k then Some(0)
    else match IndexOf(m[1..], k)
      case None => None
      case Some(i) => Some(i + 1)
  }

  /** `get(k)`: the value of a key, if present. */
  function Lookup<K(==), V>(m: seq<(K, V)>, k: K): Option<V>
  {
    match IndexOf(m, k)
    case Some(i) => Some(m[i].1)
    case None => None
  }

  /** `put(k, v)`: a present key keeps its place and takes the new value; a new key goes last. */
  function Put<K(==), V>(m: seq<(K, V)>, k: K, v: V): seq<(K, V)>
  {
    match IndexOf(m, k)
    case Some(i) => m[i := (k, v)]
    case None => m + [(k, v)]
  }

  /** The puts of a sequence of pairs, in order. */
  function PutAll<K(==), V>(m: seq<(K, V)>, ps: seq<(K, V)>): seq<(K, V)>
  {
    if ps == [] then m else Put(PutAll(m, ps[..|ps| - 1]), ps[|ps| - 1].0, ps[|ps| - 1].1)
  }

  /** The key/value pairs of an even-length list. */
  function Pairs<T>(kv: seq<T>): (ps: seq<(T, T)>)
    requires |kv| % 2 == 0
    ensures |ps| == |kv| / 2
  {
    seq(|kv| / 2, i requires 0 <= i < |kv| / 2 => (kv[2 * i], kv[2 * i + 1]))
  }

  /** `stableMap(key, value, kv...)`; keys and values are elements of the same object list. */
  function StableMapSpec<T(==)>(key: T, value: T, kv: seq<T>): Result<seq<(T, T)>, MappingError>
  {
    if |kv| % 2 != 0 then Err(OddKeyValueList) else Ok(PutAll([(key, value)], Pairs(kv)))
  }

  /** Reference for the key order: the keys in order of their first appearance, after those
      already in `acc`. */
  function FirstOccurrences<K(==)>(acc: seq<K>, ks: seq<K>): (r: seq<K>)
    ensures |r| >= |acc| && r[..|acc|] == acc
  {
    if ks == [] then acc
    else
      var d := FirstOccurrences(acc, ks[..|ks| - 1]);
      if ks[|ks| - 1] in d then d else d + [ks[|ks| - 1]]
  }

  /** Reference for the values: the value of the last pair with key `k`. */
  function LastValue<K(==), V>(ps: seq<(K, V)>, k: K): Option<V>
  {
    if ps == [] then None
    else if ps[|ps| - 1].0 == k then Some(ps[|ps| - 1].1)
    else LastValue(ps[..|ps| - 1], k)
  }

  method StableMap<T(==)>(key: T, value: T, kv: seq<T>) returns (r: Result<seq<(T, T)>, MappingError>)
    ensures r == StableMapSpec(key, value, kv)
  {
    if |kv| % 2 != 0 {
      return Err(OddKeyValueList);
    }
    var entries := [(key, value)];
    ghost var ps := Pairs(kv);
    var i := 0;
    while i < |kv|
      invariant 0 <= i <= |kv| && i % 2 == 0
      invariant entries == PutAll([(key, value)], ps[..i / 2])
    {
      assert ps[..i / 2 + 1][..i / 2] == ps[..i / 2];
      assert ps[i / 2] == (kv[i], kv[i + 1]);
      entries := Put(entries, kv[i], kv[i + 1]);
      i := i + 2;
    }
    assert ps[..i / 2] == ps;
    return Ok(entries);
  }

  // ---- result sets ----

  /** The column type the first map's value gives: null and strings are text (`UTF8`). */
  function ColumnTypeOf(v: JavaValue): Result<PrimitiveType, MappingError>
  {
    match v
    case JNull | JString(_) => Ok(YdbTypes.Text)
    case JInteger(_) => Ok(YdbTypes.Int32)
    case JShort(_) => Ok(YdbTypes.Int16)
    case JBoolean(_) => Ok(YdbTypes.Bool)
    case JOther => Err(UnsupportedType(v))
  }

  /** The row item a value gives; a `Short` is carried in the int32 field, as YDB carries
      every signed integer up to 32 bits. */
  function ItemOf(v: JavaValue): Result<Item, MappingError>
  {
    match v
    case JNull => Ok(NullFlag)
    case JString(s) => Ok(TextValue(s))
    case JInteger(i) => Ok(Int32Value(i))
    case JShort(i) => Ok(Int32Value(i))
    case JBoolean(b) => Ok(BoolValue(b))
    case JOther => Err(UnsupportedType(v))
  }

  /** The columns of the first map, or the first unsupported value. */
  function Columns(first: seq<(string, JavaValue)>): Result<seq<Column>, MappingError>
  {
    if first == [] then Ok([])
    else
      match Columns(first[..|first| - 1])
      case Err(e) => Err(e)
      case Ok(cs) =>
        match ColumnTypeOf(first[|first| - 1].1)
        case Err(e) => Err(e)
        case Ok(t) => Ok(cs + [Column(first[|first| - 1].0, t)])
  }

  /** The items of one row, in the map's entry order. */
  function RowItems(row: seq<(string, JavaValue)>): Result<seq<Item>, MappingError>
  {
    if row == [] then Ok([])
    else
      match RowItems(row[..|row| - 1])
      case Err(e) => Err(e)
      case Ok(items) =>
        match ItemOf(row[|row| - 1].1)
        case Err(e) => Err(e)
        case Ok(item) => Ok(items + [item])
  }

  function Rows(list: seq<seq<(string, JavaValue)>>): Result<seq<seq<Item>>, MappingError>
  {
    if list == [] then Ok([])
    else
      match Rows(list[..|list| - 1])
      case Err(e) => Err(e)
      case Ok(rs) =>
        match RowItems(list[|list| - 1])
        case Err(e) => Err(e)
        case Ok(items) => Ok(rs + [items])
  }

  /** `readerFromList(list)`: the columns of the first map are built first, then the rows. */
  function ReaderFromListSpec(list: seq<seq<(string, JavaValue)>>): Result<ResultSetMessage, MappingError>
  {
    if list == [] then Ok(EmptyReader())
    else
      match Columns(list[0])
      case Err(e) => Err(e)
      case Ok(cs) =>
        match Rows(list)
        case Err(e) => Err(e)
        case Ok(rs) => Ok(ResultSetMessage(cs, rs))
  }

  /** `emptyReader()` */
  function EmptyReader(): (r: ResultSetMessage)
    ensures |r.columns| == 0 && |r.rows| == 0
  {
    ResultSetMessage([], [])
  }

  method ReaderFromList(list: seq<seq<(string, JavaValue)>>) returns (r: Result<ResultSetMessage, MappingError>)
    ensures r == ReaderFromListSpec(list)
  {
    if list == [] {
      return Ok(EmptyReader());
    }
    var first := list[0];
    var columns := [];
    var i := 0;
    while i < |first|
      invariant 0 <= i <= |first|
      invariant Columns(first[..i]) == Ok(columns)
    {
      assert first[..i + 1][..i] == first[..i];
      var t := ColumnTypeOf(first[i].1);
      if t.Err? {
        assert Columns(first[..i + 1]).Err?;
        ColumnsErrorPersists(first, i + 1);
        return Err(t.error);
      }
      columns := columns + [Column(first[i].0, t.value)];
      i := i + 1;
    }
    assert first[..i] == first;
    var rows := [];
    var n := 0;
    while n < |list|
      invariant 0 <= n <= |list|
      invariant Rows(list[..n]) == Ok(rows)
    {
      assert list[..n + 1][..n] == list[..n];
      var row := list[n];
      var items := [];
      var j := 0;
      while j < |row|
        invariant 0 <= j <= |row|
        invariant RowItems(row[..j]) == Ok(items)
      {
        assert row[..j + 1][..j] == row[..j];
        var item := ItemOf(row[j].1);
        if item.Err? {
          RowItemsErrorPersists(row, j + 1);
          assert Rows(list[..n + 1]).Err?;
          RowsErrorPersists(list, n + 1);
          return Err(item.error);
        }
        items := items + [item.value];
        j := j + 1;
      }
      assert row[..j] == row;
      rows := rows + [items];
      n := n + 1;
    }
    assert list[..n] == list;
    return Ok(ResultSetMessage(columns, rows));
  }

  /** `readerFromMap(map)`: the list of that one map. */
  method ReaderFromMap(m: seq<(string, JavaValue)>) returns (r: Result<ResultSetMessage, MappingError>)
    ensures r == ReaderFromListSpec([m])
  {
    r := ReaderFromList([m]);
  }

  // ---- proof helpers: the first error is the answer ----

  lemma {:induction false} ColumnsErrorPersists(first: seq<(string, JavaValue)>, i: nat)
    requires i <= |first| && Columns(first[..i]).Err?
    ensures Columns(first) == Columns(first[..i])
    decreases |first| - i
  {
    if i < |first| {
      assert first[..i + 1][..i] == first[..i];
      ColumnsErrorPersists(first, i + 1);
    } else {
      assert first[..i] == first;
    }
  }

  lemma {:induction false} RowItemsErrorPersists(row: seq<(string, JavaValue)>, i: nat)
    requires i <= |row| && RowItems(row[..i]).Err?
    ensures RowItems(row) == RowItems(row[..i])
    decreases |row| - i
  {
    if i < |row| {
      assert row[..i + 1][..i] == row[..i];
      RowItemsErrorPersists(row, i + 1);
    } else {
      assert row[..i] == row;
    }
  }

  lemma {:induction false} RowsErrorPersists(list: seq<seq<(string, JavaValue)>>, n: nat)
    requires n <= |list| && Rows(list[..n]).Err?
    ensures Rows(list) == Rows(list[..n])
    decreases |list| - n
  {
    if n < |list| {
      assert list[..n + 1][..n] == list[..n];
      RowsErrorPersists(list, n + 1);
    } else {
      assert list[..n] == list;
    }
  }

  // ---- properties ----

  /** A put keeps the keys distinct, adds its key last only when it is new, and changes the
      value of its key alone. */
  lemma PutProperties<K, V>(m: seq<(K, V)>, k: K, v: V, other: K)
    requires DistinctKeys(m)
    ensures DistinctKeys(Put(m, k, v))
    ensures Keys(Put(m, k, v)) == if k in Keys(m) then Keys(m) else Keys(m) + [k]
    ensures Lookup(Put(m, k, v), k) == Some(v)
    ensures other != k ==> Lookup(Put(m, k, v), other) == Lookup(m, other)
  {
    var m' := Put(m, k, v);
    match IndexOf(m, k)
    case Some(i) => {
      assert Keys(m') == Keys(m);
    }
    case None => {
      assert k !in Keys(m);
      assert m'[|m|] == (k, v);
      if IndexOf(m, other).Some? {
        assert m'[IndexOf(m, other).value] == m[IndexOf(m, other).value];
      }
    }
  }

  /** The puts of a list of pairs keep the keys distinct and lay them out in order of first
      appearance. */
  lemma {:induction false} PutAllKeys<K, V>(m: seq<(K, V)>, ps: seq<(K, V)>)
    requires DistinctKeys(m)
    ensures DistinctKeys(PutAll(m, ps))
    ensures Keys(PutAll(m, ps)) == FirstOccurrences(Keys(m), Keys(ps))
  {
    if ps != [] {
      var init := ps[..|ps| - 1];
      assert Keys(ps)[..|ps| - 1] == Keys(init);
      PutAllKeys(m, init);
      PutProperties(PutAll(m, init), ps[|ps| - 1].0, ps[|ps| - 1].1, ps[|ps| - 1].0);
    }
  }

  /** After the puts, a key has the value of its last pair, or its old value when no pair
      names it. */
  lemma {:induction false} PutAllLookup<K, V>(m: seq<(K, V)>, ps: seq<(K, V)>, k: K)
    requires DistinctKeys(m)
    ensures Lookup(PutAll(m, ps), k) == if LastValue(ps, k).Some? then LastValue(ps, k) else Lookup(m, k)
  {
    if ps != [] {
      var init := ps[..|ps| - 1];
      PutAllKeys(m, init);
      PutAllLookup(m, init, k);
      PutProperties(PutAll(m, init), ps[|ps| - 1].0, ps[|ps| - 1].1, k);
    }
  }

  /** `stableMap` refuses an odd-length list; otherwise the first key comes first, the other
      keys follow in order of first appearance without repeats, and a key has the value of its
      last pair, the first key keeping its value unless a later pair repeats it. */
  lemma StableMapProperties<T>(key: T, value: T, kv: seq<T>, k: T)
    ensures StableMapSpec(key, value, kv).Ok? <==> |kv| % 2 == 0
    ensures StableMapSpec(key, value, kv).Err? ==> StableMapSpec(key, value, kv).error == OddKeyValueList
    ensures StableMapSpec(key, value, kv).Ok? ==>
              var m := StableMapSpec(key, value, kv).value;
              var ps := Pairs(kv);
              DistinctKeys(m)
              && |m| >= 1 && m[0].0 == key
              && Keys(m) == FirstOccurrences([key], Keys(ps))
              && Lookup(m, k) == if LastValue(ps, k).Some? then LastValue(ps, k)
                                 else if k == key then Some(value) else None
  {
    if |kv| % 2 == 0 {
      var init := [(key, value)];
      assert Keys(init) == [key];
      PutAllKeys(init, Pairs(kv));
      PutAllLookup(init, Pairs(kv), k);
      assert Keys(PutAll(init, Pairs(kv)))[..1] == [key];
    }
  }

  /** The values `readerFromList` accepts. */
  predicate Supported(v: JavaValue)
  {
    !v.JOther?
  }

  predicate AllSupported(row: seq<(string, JavaValue)>)
  {
    forall j :: 0 <= j < |row| ==> Supported(row[j].1)
  }

  /** The columns are one per entry of the first map, named by its key and typed by its
      value, and they are built exactly when every value is supported. */
  lemma {:induction false} ColumnsOfFirst(first: seq<(string, JavaValue)>)
    ensures Columns(first).Ok? <==> AllSupported(first)
    ensures Columns(first).Err? ==> Columns(first).error.UnsupportedType?
    ensures Columns(first).Ok? ==>
              |Columns(first).value| == |first|
              && forall i :: 0 <= i < |first| ==>
                   Columns(first).value[i].name == first[i].0
                   && ColumnTypeOf(first[i].1) == Ok(Columns(first).value[i].item)
  {
    if first != [] {
      var init := first[..|first| - 1];
      ColumnsOfFirst(init);
      assert forall j :: 0 <= j < |init| ==> init[j] == first[j];
    }
  }

  /** A row has one item per entry, the encoding of its value, and is built exactly when
      every value is supported. */
  lemma {:induction false} ItemsOfRow(row: seq<(string, JavaValue)>)
    ensures RowItems(row).Ok? <==> AllSupported(row)
    ensures RowItems(row).Ok? ==>
              |RowItems(row).value| == |row|
              && forall j :: 0 <= j < |row| ==> ItemOf(row[j].1) == Ok(RowItems(row).value[j])
  {
    if row != [] {
      var init := row[..|row| - 1];
      ItemsOfRow(init);
      assert forall j :: 0 <= j < |init| ==> init[j] == row[j];
    }
  }

  lemma {:induction false} RowsOfList(list: seq<seq<(string, JavaValue)>>)
    ensures Rows(list).Ok? <==> forall n :: 0 <= n < |list| ==> AllSupported(list[n])
    ensures Rows(list).Ok? ==>
              |Rows(list).value| == |list|
              && forall n :: 0 <= n < |list| ==> RowItems(list[n]) == Ok(Rows(list).value[n])
  {
    if list != [] {
      var init := list[..|list| - 1];
      RowsOfList(init);
      ItemsOfRow(list[|list| - 1]);
      assert forall n :: 0 <= n < |init| ==> init[n] == list[n];
    }
  }

  /** `readerFromList` succeeds exactly when every value of every map is supported; an empty
      list gives no columns and no rows; otherwise the columns come from the first map and
      there is one row per map, one item per entry. */
  lemma ReaderFromListProperties(list: seq<seq<(string, JavaValue)>>)
    ensures ReaderFromListSpec(list).Ok? <==> forall n :: 0 <= n < |list| ==> AllSupported(list[n])
    ensures list == [] ==> ReaderFromListSpec(list) == Ok(ResultSetMessage([], []))
    ensures list != [] && ReaderFromListSpec(list).Ok? ==>
              var rs := ReaderFromListSpec(list).value;
              |rs.columns| == |list[0]| && |rs.rows| == |list|
              && (forall i :: 0 <= i < |list[0]| ==> rs.columns[i].name == list[0][i].0)
              && (forall n :: 0 <= n < |list| ==> |rs.rows[n]| == |list[n]|)
              && forall n, j :: 0 <= n < |list| && 0 <= j < |list[n]| ==> ItemOf(list[n][j].1) == Ok(rs.rows[n][j])
  {
    if list != [] {
      ColumnsOfFirst(list[0]);
      RowsOfList(list);
      forall n | 0 <= n < |list| && AllSupported(list[n])
        ensures RowItems(list[n]).Ok?
      {
        ItemsOfRow(list[n]);
      }
      if Rows(list).Ok? {
        forall n | 0 <= n < |list|
          ensures |Rows(list).value[n]| == |list[n]|
          ensures forall j :: 0 <= j < |list[n]| ==> ItemOf(list[n][j].1) == Ok(Rows(list).value[n][j])
        {
          ItemsOfRow(list[n]);
        }
      }
    }
  }

  /** `readerFromMap` gives one row and the map's columns, or the error of its first
      unsupported value. */
  lemma ReaderFromMapOneRow(m: seq<(string, JavaValue)>)
    ensures ReaderFromListSpec([m]).Ok? <==> AllSupported(m)
    ensures ReaderFromListSpec([m]).Ok? ==>
              |ReaderFromListSpec([m]).value.rows| == 1 && |ReaderFromListSpec([m]).value.columns| == |m|
  {
    ReaderFromListProperties([m]);
  }

  /** The value a row item reads back as. */
  function ValueOf(item: Item): JavaValue
  {
    match item
    case NullFlag => JNull
    case TextValue(s) => JString(s)
    case Int32Value(i) => JInteger(i)
    case BoolValue(b) => JBoolean(b)
  }

  /** Every supported value reads back as itself, except a `Short`, which reads back as the
      `Integer` of the same number; and the item fits the column its value gives. */
  lemma ItemRoundTrip(v: JavaValue)
    requires Supported(v)
    ensures ItemOf(v).Ok? && ColumnTypeOf(v).Ok?
    ensures ValueOf(ItemOf(v).value) == if v.JShort? then JInteger(v.i) else v
    ensures ColumnTypeOf(v).value == YdbTypes.Text <==> ItemOf(v).value.NullFlag? || ItemOf(v).value.TextValue?
    ensures ColumnTypeOf(v).value == YdbTypes.Bool <==> ItemOf(v).value.BoolValue?
    ensures ColumnTypeOf(v).value in {YdbTypes.Int32, YdbTypes.Int16} <==> ItemOf(v).value.Int32Value?
  {
  }
}
