/**
 * The Data Mapper engine with its Identity Map. A mapper's state is an
 * immutable record: the memoized data map, the identity map from id to the
 * one instance loaded for it, the ref the next allocated instance gets, how
 * often the metadata loader ran, and every call made on the connection.
 * Each operation returns its result together with the new state.
 */
module DataMapper {
  import opened Wrappers
  import opened Metadata
  import opened Database
  import Php

  datatype Mapper = Mapper(
    dataMap: Option<DataMap>,
    loadedMap: map<int, Entity>,
    nextRef: nat,
    metadataLoads: nat,
    calls: seq<Call>)

  /** What a concrete mapper supplies: the data map its loader builds and its find-by-id SQL. */
  datatype Subtype = Subtype(loadDataMap: DataMap, findStatement: string)

  /** The uniform failure a find reports. */
  datatype MapperError =
    | SqlException(message: string, code: int)
    | EntityNotFound(id: int)

  datatype Meta = Meta(dataMap: DataMap, mapper: Mapper)
  datatype Loaded = Loaded(entity: Entity, mapper: Mapper)
  datatype LoadedAll = LoadedAll(entities: seq<Entity>, mapper: Mapper)
  datatype Found<T> = Found(result: Result<T, MapperError>, mapper: Mapper)

  /**
   * The mapper's invariant: every cached entity's ref was handed out
   * already, no two cached entities are the same instance, and the metadata
   * loader ran exactly when the data map is set.
   */
  ghost predicate Valid(m: Mapper) {
    && (forall k :: k in m.loadedMap ==> m.loadedMap[k].ref < m.nextRef)
    && (forall k, k' :: k in m.loadedMap && k' in m.loadedMap && k != k' ==> m.loadedMap[k].ref != m.loadedMap[k'].ref)
    && m.metadataLoads == (if m.dataMap.Some? then 1 else 0)
  }

  /**
   * Every cached entity's id property holds the key it is cached under. The
   * mapper keeps this only while its column maps leave the id alone (`KeepsId`).
   */
  ghost predicate KeysAreIds(m: Mapper) {
    forall k :: k in m.loadedMap ==> Identifies(m.loadedMap[k], k)
  }

  /**
   * `m'` is a later state of `m`: no cached entry is removed or replaced,
   * refs are never reused, the memoized data map stays and the call log
   * only grows.
   */
  ghost predicate Grows(m: Mapper, m': Mapper) {
    && (forall k :: k in m.loadedMap ==> k in m'.loadedMap && m'.loadedMap[k] == m.loadedMap[k])
    && m.nextRef <= m'.nextRef
    && m.metadataLoads <= m'.metadataLoads
    && (m.dataMap.Some? ==> m'.dataMap == m.dataMap)
    && IsPrefix(m.calls, m'.calls)
  }

  lemma GrowsTransitive(a: Mapper, b: Mapper, c: Mapper)
    requires Grows(a, b) && Grows(b, c)
    ensures Grows(a, c)
  {
  }

  /** A freshly constructed mapper: nothing loaded, nothing cached, no call made. */
  function New(): (m: Mapper)
    ensures Valid(m) && KeysAreIds(m)
    ensures m.dataMap.None? && m.loadedMap == map[] && m.calls == []
  {
    Mapper(None, map[], 0, 0, [])
  }

  /** The data map `GetDataMap` yields in state `m`. */
  function DataMapOf(m: Mapper, st: Subtype): DataMap {
    if m.dataMap.Some? then m.dataMap.value else st.loadDataMap
  }

  /**
   * The metadata accessor: loads the data map on first use and memoizes it;
   * later calls return the memoized value and leave the state as it is.
   */
  function GetDataMap(m: Mapper, st: Subtype): (r: Meta)
    ensures r.mapper.dataMap == Some(r.dataMap)
    ensures m.dataMap.Some? ==> r == Meta(m.dataMap.value, m)
    ensures m.dataMap.None? ==>
      && r.dataMap == st.loadDataMap
      && r.mapper == m.(dataMap := Some(st.loadDataMap), metadataLoads := m.metadataLoads + 1)
    ensures Valid(m) ==> Valid(r.mapper) && Grows(m, r.mapper) && r.mapper.metadataLoads == 1
  {
    match m.dataMap
    case Some(dm) => Meta(dm, m)
    case None => Meta(st.loadDataMap, m.(dataMap := Some(st.loadDataMap), metadataLoads := m.metadataLoads + 1))
  }

  /** A second metadata access returns what the first did and changes nothing. */
  lemma GetDataMapMemoized(m: Mapper, st: Subtype)
    requires Valid(m)
    ensures var first := GetDataMap(m, st);
      && GetDataMap(first.mapper, st) == first
      && first.mapper.metadataLoads <= 1
  {
  }

  /** Applies the column maps, in order, with the row's values to `e`. */
  function LoadFields(row: Row, e: Entity, cms: seq<ColumnMap>): (r: Entity)
    requires HasColumns(row, cms)
    ensures r.ref == e.ref
    ensures Assigned(r.fields, e.fields, row, cms)
    decreases |cms|
  {
    if cms == [] then e
    else
      var e' := SetField(e, cms[0], row[cms[0].columnName]);
      var r := LoadFields(row, e', cms[1..]);
      LoadFieldsStep(row, e, e', r, cms);
      r
  }

  /** The head column map's write is kept exactly when no later map writes the same field. */
  lemma LoadFieldsStep(row: Row, e: Entity, e': Entity, r: Entity, cms: seq<ColumnMap>)
    requires cms != [] && HasColumns(row, cms)
    requires e' == SetField(e, cms[0], row[cms[0].columnName])
    requires Assigned(r.fields, e'.fields, row, cms[1..])
    ensures Assigned(r.fields, e.fields, row, cms)
  {
    var tail := cms[1..];
    assert MappedFields(cms) == {cms[0].fieldName} + MappedFields(tail) by {
      forall f | f in MappedFields(cms) ensures f in {cms[0].fieldName} + MappedFields(tail) {
        var i :| 0 <= i < |cms| && cms[i].fieldName == f;
        if i > 0 {
          assert tail[i - 1].fieldName == f;
        }
      }
      forall f | f in MappedFields(tail) ensures f in MappedFields(cms) {
        var i :| 0 <= i < |tail| && tail[i].fieldName == f;
        assert cms[i + 1].fieldName == f;
      }
    }
    forall i | 0 <= i < |cms| && LastWriter(cms, i)
      ensures r.fields[cms[i].fieldName] == row[cms[i].columnName]
    {
      if i == 0 {
        assert cms[0].fieldName !in MappedFields(tail) by {
          forall j | 0 <= j < |tail| ensures tail[j].fieldName != cms[0].fieldName {
            assert tail[j] == cms[j + 1];
          }
        }
      } else {
        assert tail[i - 1] == cms[i];
        assert LastWriter(tail, i - 1) by {
          forall j | i - 1 < j < |tail| ensures tail[j].fieldName != tail[i - 1].fieldName {
            assert tail[j] == cms[j + 1];
          }
        }
      }
    }
  }

  /** The row can be passed to `Load` in a state whose identity map is `loaded`. */
  predicate Loadable(loaded: map<int, Entity>, dm: DataMap, row: Row) {
    HasId(row) && (IdOf(row) !in loaded ==> HasColumns(row, dm.columnMaps))
  }

  /**
   * Hydrates one row. An id already in the identity map yields the cached
   * instance and the row's other values are ignored; otherwise a blank
   * instance gets the row's id and mapped fields and is cached under its id.
   */
  function Load(m: Mapper, st: Subtype, row: Row): (r: Loaded)
    requires Loadable(m.loadedMap, DataMapOf(m, st), row)
    ensures IdOf(row) in m.loadedMap ==> r == Loaded(m.loadedMap[IdOf(row)], m)
    ensures IdOf(row) !in m.loadedMap ==>
      && Hydrated(r.entity, row, DataMapOf(m, st))
      && r.entity.ref == m.nextRef
      && r.mapper.loadedMap == m.loadedMap[IdOf(row) := r.entity]
      && r.mapper.nextRef == m.nextRef + 1
      && r.mapper.dataMap == Some(DataMapOf(m, st))
      && r.mapper.metadataLoads == (if m.dataMap.None? then m.metadataLoads + 1 else m.metadataLoads)
      && r.mapper.calls == m.calls
    ensures IdOf(row) in r.mapper.loadedMap && r.mapper.loadedMap[IdOf(row)] == r.entity
    ensures DataMapOf(r.mapper, st) == DataMapOf(m, st)
    ensures Valid(m) ==> Valid(r.mapper) && Grows(m, r.mapper)
    ensures KeysAreIds(m) && KeepsId(DataMapOf(m, st).columnMaps) ==>
      KeysAreIds(r.mapper) && Identifies(r.entity, IdOf(row))
  {
    var id := IdOf(row);
    if id in m.loadedMap then
      Loaded(m.loadedMap[id], m)
    else
      var meta := GetDataMap(m, st);
      var blank := NewInstance(meta.dataMap.domainClass, meta.mapper.nextRef);
      var e := LoadFields(row, SetId(blank, id), meta.dataMap.columnMaps);
      assert KeepsId(meta.dataMap.columnMaps) ==> Identifies(e, id) by {
        if KeepsId(meta.dataMap.columnMaps) {
          HydratedIdentifies(e, row, meta.dataMap);
        }
      }
      Loaded(e, meta.mapper.(loadedMap := meta.mapper.loadedMap[id := e], nextRef := meta.mapper.nextRef + 1))
  }

  predicate AllHaveIds(rows: seq<Row>) {
    forall i :: 0 <= i < |rows| ==> HasId(rows[i])
  }

  /** No row before the `i`-th carries its id. */
  predicate FirstOccurrence(rows: seq<Row>, i: int)
    requires AllHaveIds(rows) && 0 <= i < |rows|
  {
    forall j :: 0 <= j < i ==> IdOf(rows[j]) != IdOf(rows[i])
  }

  ghost function IdsOf(rows: seq<Row>): set<int>
    requires AllHaveIds(rows)
  {
    set i | 0 <= i < |rows| :: IdOf(rows[i])
  }

  /**
   * The rows can be passed to `LoadAll`: each has an id, and each row that
   * will be hydrated (its id neither cached nor seen in an earlier row)
   * carries every mapped column.
   */
  predicate RowsFit(loaded: map<int, Entity>, dm: DataMap, rows: seq<Row>) {
    && AllHaveIds(rows)
    && forall i :: 0 <= i < |rows| && IdOf(rows[i]) !in loaded && FirstOccurrence(rows, i) ==>
         HasColumns(rows[i], dm.columnMaps)
  }

  /**
   * `entities` is what loading `rows` from state `m` into state `m'` yields:
   * one entity per row, each the cached instance for its row's id, the
   * identity map extended by exactly the rows' ids, and every entity first
   * loaded here a new instance hydrated from the first row with its id.
   */
  ghost predicate LoadedRows(m: Mapper, m': Mapper, dm: DataMap, rows: seq<Row>, entities: seq<Entity>)
    requires RowsFit(m.loadedMap, dm, rows)
  {
    && |entities| == |rows|
    && (forall i :: 0 <= i < |rows| ==>
          && IdOf(rows[i]) in m'.loadedMap
          && entities[i] == m'.loadedMap[IdOf(rows[i])])
    && m'.loadedMap.Keys == m.loadedMap.Keys + IdsOf(rows)
    && (forall i :: 0 <= i < |rows| && IdOf(rows[i]) !in m.loadedMap && FirstOccurrence(rows, i) ==>
          Hydrated(entities[i], rows[i], dm) && m.nextRef <= entities[i].ref)
  }

  /** Once the first row's id is cached, the remaining rows can be loaded. */
  lemma RowsFitTail(loaded: map<int, Entity>, loaded': map<int, Entity>, dm: DataMap, rows: seq<Row>)
    requires rows != [] && RowsFit(loaded, dm, rows)
    requires IdOf(rows[0]) in loaded'
    requires forall k :: k in loaded ==> k in loaded'
    ensures RowsFit(loaded', dm, rows[1..])
  {
    var tail := rows[1..];
    forall i | 0 <= i < |tail| && IdOf(tail[i]) !in loaded' && FirstOccurrence(tail, i)
      ensures HasColumns(tail[i], dm.columnMaps)
    {
      assert tail[i] == rows[i + 1];
      assert FirstOccurrence(rows, i + 1) by {
        forall j | 0 <= j < i + 1 ensures IdOf(rows[j]) != IdOf(rows[i + 1]) {
          if j > 0 {
            assert tail[j - 1] == rows[j];
          }
        }
      }
    }
  }

  /** Every row's id is already in the identity map. */
  predicate AllCached(loaded: map<int, Entity>, rows: seq<Row>)
    requires AllHaveIds(rows)
  {
    forall i :: 0 <= i < |rows| ==> IdOf(rows[i]) in loaded
  }

  /** Each entity is the instance the identity map holds for its row's id. */
  predicate CachedInstances(loaded: map<int, Entity>, rows: seq<Row>, entities: seq<Entity>)
    requires AllHaveIds(rows) && AllCached(loaded, rows)
  {
    |entities| == |rows| && forall i :: 0 <= i < |rows| ==> entities[i] == loaded[IdOf(rows[i])]
  }

  /** Hydrates the rows in order, threading the identity map through. */
  function LoadAll(m: Mapper, st: Subtype, rows: seq<Row>): (r: LoadedAll)
    requires Valid(m)
    requires RowsFit(m.loadedMap, DataMapOf(m, st), rows)
    ensures |r.entities| == |rows|
    ensures r.mapper.calls == m.calls
    ensures DataMapOf(r.mapper, st) == DataMapOf(m, st)
    ensures Valid(r.mapper) && Grows(m, r.mapper)
    ensures KeysAreIds(m) && KeepsId(DataMapOf(m, st).columnMaps) ==> KeysAreIds(r.mapper)
    ensures AllCached(m.loadedMap, rows) ==> r.mapper == m && CachedInstances(m.loadedMap, rows, r.entities)
    decreases |rows|
  {
    if rows == [] then
      LoadedAll([], m)
    else
      var first := Load(m, st, rows[0]);
      RowsFitTail(m.loadedMap, first.mapper.loadedMap, DataMapOf(m, st), rows);
      var rest := LoadAll(first.mapper, st, rows[1..]);
      GrowsTransitive(m, first.mapper, rest.mapper);
      LoadedAll([first.entity] + rest.entities, rest.mapper)
  }

  /** `LoadAll` of a non-empty sequence: the first row, then the rest from the state it leaves. */
  lemma LoadAllUnfold(m: Mapper, st: Subtype, rows: seq<Row>)
    requires Valid(m) && rows != []
    requires RowsFit(m.loadedMap, DataMapOf(m, st), rows)
    ensures var first := Load(m, st, rows[0]);
      && Valid(first.mapper)
      && RowsFit(first.mapper.loadedMap, DataMapOf(first.mapper, st), rows[1..])
      && var rest := LoadAll(first.mapper, st, rows[1..]);
         LoadAll(m, st, rows) == LoadedAll([first.entity] + rest.entities, rest.mapper)
  {
    assert FirstOccurrence(rows, 0);
    RowsFitTail(m.loadedMap, Load(m, st, rows[0]).mapper.loadedMap, DataMapOf(m, st), rows);
  }

  /**
   * What `LoadAll` yields: one entity per row, in row order, each the cached
   * instance for its row's id; the identity map grows by exactly the rows'
   * ids; and each id met for the first time is hydrated from its first row.
   */
  lemma {:induction false} LoadAllLoadsRows(m: Mapper, st: Subtype, rows: seq<Row>)
    requires Valid(m)
    requires RowsFit(m.loadedMap, DataMapOf(m, st), rows)
    ensures var r := LoadAll(m, st, rows);
      && LoadedRows(m, r.mapper, DataMapOf(m, st), rows, r.entities)
      && (KeysAreIds(m) && KeepsId(DataMapOf(m, st).columnMaps) ==>
            forall i :: 0 <= i < |rows| ==> Identifies(r.entities[i], IdOf(rows[i])))
    decreases |rows|
  {
    if rows != [] {
      var first := Load(m, st, rows[0]);
      RowsFitTail(m.loadedMap, first.mapper.loadedMap, DataMapOf(m, st), rows);
      var rest := LoadAll(first.mapper, st, rows[1..]);
      LoadAllLoadsRows(first.mapper, st, rows[1..]);
      LoadAllStep(m, st, rows, first, rest, LoadAll(m, st, rows));
    } else {
      assert IdsOf(rows) == {};
    }
  }

  lemma IdsOfCons(rows: seq<Row>)
    requires rows != [] && AllHaveIds(rows)
    ensures AllHaveIds(rows[1..])
    ensures IdsOf(rows) == {IdOf(rows[0])} + IdsOf(rows[1..])
  {
    var tail := rows[1..];
    forall x | x in IdsOf(rows) ensures x in {IdOf(rows[0])} + IdsOf(tail) {
      var i :| 0 <= i < |rows| && IdOf(rows[i]) == x;
      if i > 0 {
        assert tail[i - 1] == rows[i];
      }
    }
    forall x | x in IdsOf(tail) ensures x in IdsOf(rows) {
      var i :| 0 <= i < |tail| && IdOf(tail[i]) == x;
      assert rows[i + 1] == tail[i];
    }
  }

  lemma LoadAllStep(m: Mapper, st: Subtype, rows: seq<Row>, first: Loaded, rest: LoadedAll, r: LoadedAll)
    requires Valid(m) && rows != [] && RowsFit(m.loadedMap, DataMapOf(m, st), rows)
    requires first == Load(m, st, rows[0])
    requires RowsFit(first.mapper.loadedMap, DataMapOf(first.mapper, st), rows[1..])
    requires Valid(first.mapper) && Grows(m, first.mapper)
    requires LoadedRows(first.mapper, rest.mapper, DataMapOf(first.mapper, st), rows[1..], rest.entities)
    requires Grows(first.mapper, rest.mapper) && Valid(rest.mapper)
    requires r == LoadedAll([first.entity] + rest.entities, rest.mapper)
    ensures LoadedRows(m, r.mapper, DataMapOf(m, st), rows, r.entities)
  {
    LoadAllStepKeys(m, st, rows, first, rest);
    LoadAllStepEntities(m, st, rows, first, rest, r);
    LoadAllStepHydrated(m, st, rows, first, rest, r);
  }

  lemma LoadAllStepKeys(m: Mapper, st: Subtype, rows: seq<Row>, first: Loaded, rest: LoadedAll)
    requires rows != [] && AllHaveIds(rows)
    requires Loadable(m.loadedMap, DataMapOf(m, st), rows[0])
    requires first == Load(m, st, rows[0])
    requires rest.mapper.loadedMap.Keys == first.mapper.loadedMap.Keys + IdsOf(rows[1..])
    ensures rest.mapper.loadedMap.Keys == m.loadedMap.Keys + IdsOf(rows)
  {
    IdsOfCons(rows);
    assert first.mapper.loadedMap.Keys == m.loadedMap.Keys + {IdOf(rows[0])};
  }

  lemma LoadAllStepEntities(m: Mapper, st: Subtype, rows: seq<Row>, first: Loaded, rest: LoadedAll, r: LoadedAll)
    requires Valid(m) && rows != [] && RowsFit(m.loadedMap, DataMapOf(m, st), rows)
    requires first == Load(m, st, rows[0])
    requires RowsFit(first.mapper.loadedMap, DataMapOf(first.mapper, st), rows[1..])
    requires LoadedRows(first.mapper, rest.mapper, DataMapOf(first.mapper, st), rows[1..], rest.entities)
    requires Grows(first.mapper, rest.mapper) && Valid(rest.mapper)
    requires r == LoadedAll([first.entity] + rest.entities, rest.mapper)
    ensures forall i :: 0 <= i < |rows| ==>
      && IdOf(rows[i]) in r.mapper.loadedMap
      && r.entities[i] == r.mapper.loadedMap[IdOf(rows[i])]
  {
    var tail := rows[1..];
    forall i | 0 <= i < |rows|
      ensures IdOf(rows[i]) in r.mapper.loadedMap
      ensures r.entities[i] == r.mapper.loadedMap[IdOf(rows[i])]
    {
      if i > 0 {
        assert tail[i - 1] == rows[i];
        assert r.entities[i] == rest.entities[i - 1];
      }
    }
  }

  lemma LoadAllStepHydrated(m: Mapper, st: Subtype, rows: seq<Row>, first: Loaded, rest: LoadedAll, r: LoadedAll)
    requires Valid(m) && rows != [] && RowsFit(m.loadedMap, DataMapOf(m, st), rows)
    requires first == Load(m, st, rows[0])
    requires RowsFit(first.mapper.loadedMap, DataMapOf(first.mapper, st), rows[1..])
    requires Grows(m, first.mapper)
    requires LoadedRows(first.mapper, rest.mapper, DataMapOf(first.mapper, st), rows[1..], rest.entities)
    requires r == LoadedAll([first.entity] + rest.entities, rest.mapper)
    ensures forall i :: 0 <= i < |rows| && IdOf(rows[i]) !in m.loadedMap && FirstOccurrence(rows, i) ==>
      Hydrated(r.entities[i], rows[i], DataMapOf(m, st)) && m.nextRef <= r.entities[i].ref
  {
    var dm := DataMapOf(m, st);
    var tail := rows[1..];
    var id0 := IdOf(rows[0]);
    forall i | 0 <= i < |rows| && IdOf(rows[i]) !in m.loadedMap && FirstOccurrence(rows, i)
      ensures Hydrated(r.entities[i], rows[i], dm) && m.nextRef <= r.entities[i].ref
    {
      if i > 0 {
        assert tail[i - 1] == rows[i];
        assert r.entities[i] == rest.entities[i - 1];
        assert IdOf(rows[i]) != id0;
        assert FirstOccurrence(tail, i - 1) by {
          forall j | 0 <= j < i - 1 ensures IdOf(tail[j]) != IdOf(tail[i - 1]) {
            assert tail[j] == rows[j + 1];
          }
        }
      }
    }
  }

  /** The value PHP's `(int)` cast gives the driver's error code. */
  function CodeValue(code: ErrorCode): int {
    match code
    case IntCode(n) => n
    case SqlState(state) => Php.IntCast(state)
  }

  /**
   * The uniform re-throw of a driver error: the message is kept and the code
   * is the driver's code passed through PHP's `(int)` cast.
   */
  function Translate(e: DriverError): (x: MapperError)
    ensures x.SqlException? && x.message == e.message
    ensures e.code.IntCode? ==> x.code == e.code.n
  {
    SqlException(e.message, CodeValue(e.code))
  }

  /**
   * A SQLSTATE that starts with an integer's digits, followed by nothing
   * that continues a number, keeps that integer as its code: "23000" becomes
   * 23000 and "42S02" becomes 42.
   */
  lemma TranslateSqlState(message: string, n: int, rest: string)
    requires Php.EndsNumber(rest)
    ensures Translate(DriverError(message, SqlState(Php.IntString(n) + rest))) == SqlException(message, n)
  {
    Php.IntCastOfRendering(n, rest);
  }

  /** The find-by-id statement's one parameter: the id, bound at position 1. */
  function FindBindings(id: int): seq<Binding> {
    [Binding(Position(1), IntValue(id))]
  }

  /** What running the find-by-id statement for `id` on `conn` produces. */
  function FindExchange(conn: Connection, st: Subtype, id: int): Exchange {
    Run(conn, st.findStatement, FindBindings(id), [])
  }

  /** The first row a find-by-id gets back, if it is used at all, can be loaded. */
  predicate FindRowFits(m: Mapper, st: Subtype, conn: Connection, id: int) {
    || id in m.loadedMap
    || (var x := FindExchange(conn, st, id);
        x.result.Success? && x.result.value != [] ==> Loadable(m.loadedMap, DataMapOf(m, st), x.result.value[0]))
  }

  lemma CallsGrow(m: Mapper, calls: seq<Call>)
    requires Valid(m)
    ensures Valid(m.(calls := m.calls + calls)) && Grows(m, m.(calls := m.calls + calls))
  {
    assert (m.calls + calls)[..|m.calls|] == m.calls;
  }

  /**
   * Find by id. A cached id is answered from the identity map before any
   * SQL is prepared; otherwise the find statement runs with the id bound at
   * position 1 and its first row is loaded. A driver failure becomes an
   * `SqlException`; no row at all becomes `EntityNotFound`.
   */
  function AbstractFind(m: Mapper, st: Subtype, conn: Connection, id: int): (r: Found<Entity>)
    requires Valid(m)
    requires FindRowFits(m, st, conn, id)
    ensures Valid(r.mapper) && Grows(m, r.mapper)
    ensures DataMapOf(r.mapper, st) == DataMapOf(m, st)
    ensures KeysAreIds(m) && KeepsId(DataMapOf(m, st).columnMaps) ==> KeysAreIds(r.mapper)
    ensures id in m.loadedMap ==> r == Found(Success(m.loadedMap[id]), m)
    ensures id !in m.loadedMap ==>
      var x := FindExchange(conn, st, id);
      && r.mapper.calls == m.calls + x.calls
      && (x.result.Failure? ==>
            r == Found(Failure(Translate(x.result.error)), m.(calls := m.calls + x.calls)))
      && (x.result.Success? && x.result.value == [] ==>
            r == Found(Failure(EntityNotFound(id)), m.(calls := m.calls + x.calls)))
      && (x.result.Success? && x.result.value != [] ==>
            var rowId := IdOf(x.result.value[0]);
            && r.result.Success?
            && r.mapper.loadedMap == m.loadedMap[rowId := r.result.value]
            && (rowId in m.loadedMap ==>
                  r == Found(Success(m.loadedMap[rowId]), m.(calls := m.calls + x.calls)))
            && (rowId !in m.loadedMap ==>
                  && Hydrated(r.result.value, x.result.value[0], DataMapOf(m, st))
                  && r.result.value.ref == m.nextRef
                  && r.mapper.nextRef == m.nextRef + 1
                  && r.mapper.dataMap == Some(DataMapOf(m, st)))
            && (KeysAreIds(m) && KeepsId(DataMapOf(m, st).columnMaps) ==> Identifies(r.result.value, rowId)))
  {
    if id in m.loadedMap then
      Found(Success(m.loadedMap[id]), m)
    else
      var x := Run(conn, st.findStatement, FindBindings(id), []);
      var m1 := m.(calls := m.calls + x.calls);
      CallsGrow(m, x.calls);
      match x.result
      case Failure(e) => Found(Failure(Translate(e)), m1)
      case Success(rows) =>
        if rows == [] then
          Found(Failure(EntityNotFound(id)), m1)
        else
          var loaded := Load(m1, st, rows[0]);
          Found(Success(loaded.entity), loaded.mapper)
  }

  /** When a statement succeeds, its rows can be loaded from state `m`. */
  predicate ResultFits(m: Mapper, st: Subtype, result: Result<seq<Row>, DriverError>) {
    result.Success? ==> RowsFit(m.loadedMap, DataMapOf(m, st), result.value)
  }

  /**
   * Runs a prebuilt statement: every parameter of the source is bound, in
   * order, before it executes; the rows are loaded in order. A driver
   * failure becomes an `SqlException` and loads nothing.
   */
  function FindMany(m: Mapper, st: Subtype, conn: Connection, source: StatementSource): (r: Found<seq<Entity>>)
    requires Valid(m)
    requires ResultFits(m, st, Run(conn, source.sql, source.parameters, []).result)
    ensures Valid(r.mapper) && Grows(m, r.mapper)
    ensures DataMapOf(r.mapper, st) == DataMapOf(m, st)
    ensures KeysAreIds(m) && KeepsId(DataMapOf(m, st).columnMaps) ==> KeysAreIds(r.mapper)
    ensures var x := Run(conn, source.sql, source.parameters, []);
      && r.mapper.calls == m.calls + x.calls
      && (x.result.Failure? ==>
            r == Found(Failure(Translate(x.result.error)), m.(calls := m.calls + x.calls)))
      && (x.result.Success? ==>
            && r.result.Success?
            && x.calls == Protocol(source.sql, source.parameters, [])
            && LoadedRows(m, r.mapper, DataMapOf(m, st), x.result.value, r.result.value)
            && (AllCached(m.loadedMap, x.result.value) ==>
                  r.mapper == m.(calls := m.calls + x.calls)))
  {
    var x := Run(conn, source.sql, source.parameters, []);
    var m1 := m.(calls := m.calls + x.calls);
    CallsGrow(m, x.calls);
    match x.result
    case Failure(e) => Found(Failure(Translate(e)), m1)
    case Success(rows) =>
      var all := LoadAll(m1, st, rows);
      LoadAllLoadsRows(m1, st, rows);
      Found(Success(all.entities), all.mapper)
  }

  const SelectFormat: string := "SELECT %s FROM %s WHERE %s"

  lemma SelectFormatExpands(columnList: string, tableName: string, whereClause: string)
    ensures Php.Conversions(SelectFormat) == 3
    ensures Php.Sprintf(SelectFormat, [columnList, tableName, whereClause])
         == "SELECT " + columnList + " FROM " + tableName + " WHERE " + whereClause
  {
    assert SelectFormat == "SELECT " + "%s" + " FROM " + "%s" + " WHERE " + "%s";
    Php.SprintfThreeConversions("SELECT ", " FROM ", " WHERE ", columnList, tableName, whereClause);
  }

  /** The SELECT statement over a projection, a table and a caller-supplied WHERE clause. */
  function SelectSql(columnList: string, tableName: string, whereClause: string): (sql: string)
    ensures sql == "SELECT " + columnList + " FROM " + tableName + " WHERE " + whereClause
  {
    SelectFormatExpands(columnList, tableName, whereClause);
    Php.Sprintf(SelectFormat, [columnList, tableName, whereClause])
  }

  /**
   * Finds by a caller-supplied WHERE clause: the data map is obtained (and
   * memoized) first, the SELECT over its projection and table is executed
   * with `bindValues`, and the rows are loaded in order. A driver failure
   * becomes an `SqlException` and loads nothing.
   */
  function FindObjectsWhere(m: Mapper, st: Subtype, conn: Connection, whereClause: string, bindValues: seq<Value>)
    : (r: Found<seq<Entity>>)
    requires Valid(m)
    requires var dm := DataMapOf(m, st);
      ResultFits(m, st, Run(conn, "SELECT " + dm.columnList + " FROM " + dm.tableName + " WHERE " + whereClause, [], bindValues).result)
    ensures Valid(r.mapper) && Grows(m, r.mapper)
    ensures r.mapper.dataMap == Some(DataMapOf(m, st))
    ensures KeysAreIds(m) && KeepsId(DataMapOf(m, st).columnMaps) ==> KeysAreIds(r.mapper)
    ensures var dm := DataMapOf(m, st);
      var x := Run(conn, "SELECT " + dm.columnList + " FROM " + dm.tableName + " WHERE " + whereClause, [], bindValues);
      && r.mapper.calls == m.calls + x.calls
      && (x.result.Failure? ==>
            && r.result == Failure(Translate(x.result.error))
            && r.mapper == GetDataMap(m, st).mapper.(calls := m.calls + x.calls))
      && (x.result.Success? ==>
            && r.result.Success?
            && LoadedRows(m, r.mapper, dm, x.result.value, r.result.value)
            && (AllCached(m.loadedMap, x.result.value) ==>
                  r.mapper == GetDataMap(m, st).mapper.(calls := m.calls + x.calls)))
  {
    var first := GetDataMap(m, st);
    var second := GetDataMap(first.mapper, st);
    var sql := SelectSql(first.dataMap.columnList, second.dataMap.tableName, whereClause);
    var x := Run(conn, sql, [], bindValues);
    var m1 := second.mapper.(calls := second.mapper.calls + x.calls);
    CallsGrow(second.mapper, x.calls);
    match x.result
    case Failure(e) => Found(Failure(Translate(e)), m1)
    case Success(rows) =>
      var all := LoadAll(m1, st, rows);
      LoadAllLoadsRows(m1, st, rows);
      Found(Success(all.entities), all.mapper)
  }
}
