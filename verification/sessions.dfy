/**
 * Properties of a mapper over its lifetime: any sequence of operations keeps
 * the invariant and only grows the identity map, so a cached id is answered
 * from the cache, by the same instance, however the database changes.
 * Also the row-order reading of `LoadAll`.
 */
module MapperSessions {
  import opened Wrappers
  import opened Metadata
  import opened Database
  import opened DataMapper

  /** One call on a mapper; the finds carry the connection as it answers at that moment. */
  datatype Operation =
    | GetMetadata
    | LoadRow(row: Row)
    | LoadRows(rows: seq<Row>)
    | Find(conn: Connection, id: int)
    | FindWhere(conn: Connection, whereClause: string, bindValues: seq<Value>)
    | FindBySource(conn: Connection, source: StatementSource)

  /** The operation's precondition holds in state `m`. */
  ghost predicate Admissible(m: Mapper, st: Subtype, op: Operation) {
    match op
    case GetMetadata => true
    case LoadRow(row) => Loadable(m.loadedMap, DataMapOf(m, st), row)
    case LoadRows(rows) => RowsFit(m.loadedMap, DataMapOf(m, st), rows)
    case Find(conn, id) => FindRowFits(m, st, conn, id)
    case FindWhere(conn, whereClause, bindValues) =>
      var dm := DataMapOf(m, st);
      ResultFits(m, st, Run(conn, "SELECT " + dm.columnList + " FROM " + dm.tableName + " WHERE " + whereClause, [], bindValues).result)
    case FindBySource(conn, source) =>
      ResultFits(m, st, Run(conn, source.sql, source.parameters, []).result)
  }

  /**
   * The state after one operation: every operation keeps the invariant, only
   * grows the state and keeps the data map it works with; each keeps ids
   * equal to their keys when the column maps leave the id alone.
   */
  function Step(m: Mapper, st: Subtype, op: Operation): (m': Mapper)
    requires Valid(m) && Admissible(m, st, op)
    ensures Valid(m') && Grows(m, m')
    ensures DataMapOf(m', st) == DataMapOf(m, st)
    ensures KeysAreIds(m) && KeepsId(DataMapOf(m, st).columnMaps) ==> KeysAreIds(m')
  {
    match op
    case GetMetadata => GetDataMap(m, st).mapper
    case LoadRow(row) => Load(m, st, row).mapper
    case LoadRows(rows) => LoadAll(m, st, rows).mapper
    case Find(conn, id) => AbstractFind(m, st, conn, id).mapper
    case FindWhere(conn, whereClause, bindValues) => FindObjectsWhere(m, st, conn, whereClause, bindValues).mapper
    case FindBySource(conn, source) => FindMany(m, st, conn, source).mapper
  }

  /** Every operation of the sequence is admissible in the state the earlier ones leave. */
  ghost predicate AdmissibleSession(m: Mapper, st: Subtype, ops: seq<Operation>)
    decreases |ops|
  {
    ops == [] || (Valid(m) && Admissible(m, st, ops[0]) && AdmissibleSession(Step(m, st, ops[0]), st, ops[1..]))
  }

  /**
   * The state after a sequence of operations. It is valid, it extends the
   * start state, and the metadata loader has run at most once. Every cached
   * entity still carries its key as id if it did at the start and the column
   * maps leave the id alone.
   */
  function RunSession(m: Mapper, st: Subtype, ops: seq<Operation>): (m': Mapper)
    requires Valid(m) && AdmissibleSession(m, st, ops)
    ensures Valid(m') && Grows(m, m')
    ensures m'.metadataLoads <= 1
    ensures DataMapOf(m', st) == DataMapOf(m, st)
    ensures KeysAreIds(m) && KeepsId(DataMapOf(m, st).columnMaps) ==> KeysAreIds(m')
    decreases |ops|
  {
    if ops == [] then m
    else
      var next := Step(m, st, ops[0]);
      var m' := RunSession(next, st, ops[1..]);
      GrowsTransitive(m, next, m');
      m'
  }

  /**
   * Cache precedence: once an id is cached, a later find for it, after any
   * operations and against any database contents, returns the cached
   * instance and makes no call on the connection.
   */
  lemma CachePrecedence(m: Mapper, st: Subtype, ops: seq<Operation>, conn: Connection, id: int)
    requires Valid(m) && AdmissibleSession(m, st, ops)
    requires id in m.loadedMap
    ensures var m' := RunSession(m, st, ops);
      && FindRowFits(m', st, conn, id)
      && AbstractFind(m', st, conn, id) == Found(Success(m.loadedMap[id]), m')
  {
  }

  /**
   * Identity uniqueness: a find for `id` that succeeded, answered from the
   * cache or from a first row carrying `id`, and a later find for `id`
   * return the same instance, whatever happened in between.
   */
  lemma SameInstanceForSameId(
    m: Mapper, st: Subtype, conn: Connection, id: int, ops: seq<Operation>, later: Connection)
    requires Valid(m) && FindRowFits(m, st, conn, id)
    requires var first := AbstractFind(m, st, conn, id);
      && first.result.Success?
      && (|| id in m.loadedMap
          || (var rows := FindExchange(conn, st, id).result.value;
              rows != [] && HasId(rows[0]) && IdOf(rows[0]) == id))
      && AdmissibleSession(first.mapper, st, ops)
    ensures var first := AbstractFind(m, st, conn, id);
      var m' := RunSession(first.mapper, st, ops);
      && FindRowFits(m', st, later, id)
      && AbstractFind(m', st, later, id) == Found(first.result, m')
  {
    var first := AbstractFind(m, st, conn, id);
    CachePrecedence(first.mapper, st, ops, later, id);
  }

  lemma {:induction false} RowsFitPrefix(loaded: map<int, Entity>, dm: DataMap, rows: seq<Row>, k: nat)
    requires RowsFit(loaded, dm, rows) && k <= |rows|
    ensures RowsFit(loaded, dm, rows[..k])
  {
    var p := rows[..k];
    forall i | 0 <= i < |p| && IdOf(p[i]) !in loaded && FirstOccurrence(p, i)
      ensures HasColumns(p[i], dm.columnMaps)
    {
      assert p[i] == rows[i];
      assert FirstOccurrence(rows, i) by {
        forall j | 0 <= j < i ensures IdOf(rows[j]) != IdOf(rows[i]) {
          assert p[j] == rows[j];
        }
      }
    }
  }

  /** Dropping the first row shifts the entities `LoadAll` returns by one. */
  lemma LoadAllShift(m: Mapper, st: Subtype, rows: seq<Row>, i: nat)
    requires Valid(m) && RowsFit(m.loadedMap, DataMapOf(m, st), rows)
    requires 0 < i < |rows|
    ensures var first := Load(m, st, rows[0]);
      && Valid(first.mapper)
      && RowsFit(first.mapper.loadedMap, DataMapOf(first.mapper, st), rows[1..])
      && LoadAll(m, st, rows).entities[i] == LoadAll(first.mapper, st, rows[1..]).entities[i - 1]
  {
    LoadAllUnfold(m, st, rows);
  }

  /** Loading the first `i` rows is loading the first row, then the next `i - 1`. */
  lemma LoadPrefixShift(m: Mapper, st: Subtype, rows: seq<Row>, i: nat)
    requires Valid(m) && RowsFit(m.loadedMap, DataMapOf(m, st), rows)
    requires 0 < i < |rows|
    ensures RowsFit(m.loadedMap, DataMapOf(m, st), rows[..i])
    ensures var first := Load(m, st, rows[0]);
      && Valid(first.mapper)
      && RowsFit(first.mapper.loadedMap, DataMapOf(first.mapper, st), rows[1..][..i - 1])
      && LoadAll(m, st, rows[..i]).mapper == LoadAll(first.mapper, st, rows[1..][..i - 1]).mapper
  {
    var p := rows[..i];
    RowsFitPrefix(m.loadedMap, DataMapOf(m, st), rows, i);
    assert p[0] == rows[0];
    assert p[1..] == rows[1..][..i - 1];
    LoadAllUnfold(m, st, p);
  }

  /**
   * Row order: the `i`-th entity `LoadAll` returns is what `Load` gives for
   * the `i`-th row in the state left by loading the rows before it.
   */
  lemma {:induction false} LoadAllInRowOrder(m: Mapper, st: Subtype, rows: seq<Row>, i: nat)
    requires Valid(m) && RowsFit(m.loadedMap, DataMapOf(m, st), rows)
    requires i < |rows|
    ensures RowsFit(m.loadedMap, DataMapOf(m, st), rows[..i])
    ensures var before := LoadAll(m, st, rows[..i]).mapper;
      && Loadable(before.loadedMap, DataMapOf(before, st), rows[i])
      && LoadAll(m, st, rows).entities[i] == Load(before, st, rows[i]).entity
    decreases i
  {
    if i == 0 {
      LoadAllUnfold(m, st, rows);
      assert rows[..0] == [];
      assert FirstOccurrence(rows, 0);
    } else {
      LoadAllShift(m, st, rows, i);
      LoadPrefixShift(m, st, rows, i);
      var first := Load(m, st, rows[0]);
      LoadAllInRowOrder(first.mapper, st, rows[1..], i - 1);
      assert rows[1..][i - 1] == rows[i];
    }
  }

  /** Rows that share an id yield the very same instance, at each of their positions. */
  lemma LoadAllSharedIds(m: Mapper, st: Subtype, rows: seq<Row>)
    requires Valid(m) && RowsFit(m.loadedMap, DataMapOf(m, st), rows)
    ensures var r := LoadAll(m, st, rows);
      forall i, j :: 0 <= i < |rows| && 0 <= j < |rows| && IdOf(rows[i]) == IdOf(rows[j]) ==>
        r.entities[i] == r.entities[j]
  {
    LoadAllLoadsRows(m, st, rows);
  }

  /**
   * The users example: a row (id 1, name "Ada") hydrates a new instance; a
   * later row (id 1, name "Changed") yields that same instance, still named
   * "Ada", and leaves the mapper as it was.
   */
  lemma StaleRowIgnored()
    ensures
      var users := DataMap(DomainClass("User", map[]), "users", "id, name", [ColumnMap("name", "name")]);
      var st := Subtype(users, "SELECT id, name FROM users WHERE id = ?");
      var ada := Load(New(), st, map["id" := IntValue(1), "name" := TextValue("Ada")]);
      var again := Load(ada.mapper, st, map["id" := IntValue(1), "name" := TextValue("Changed")]);
      && ada.entity.fields == map["id" := IntValue(1), "name" := TextValue("Ada")]
      && again == Loaded(ada.entity, ada.mapper)
  {
    var users := DataMap(DomainClass("User", map[]), "users", "id, name", [ColumnMap("name", "name")]);
    var st := Subtype(users, "SELECT id, name FROM users WHERE id = ?");
    var row := map["id" := IntValue(1), "name" := TextValue("Ada")];
    var ada := Load(New(), st, row);
    assert LastWriter(users.columnMaps, 0);
    assert MappedFields(users.columnMaps) == {"name"};
    assert ada.entity.fields["name"] == TextValue("Ada");
  }

  /**
   * A column map that writes the id property from another column overwrites
   * the id `setId` wrote: the entity loaded from row (id 1, legacy 7) is
   * cached under 1 but its id is 7, so the identity map no longer keys
   * entities by their ids.
   */
  lemma RemappedIdMisfiles()
    ensures
      var legacy := DataMap(DomainClass("User", map[]), "users", "id, legacy", [ColumnMap("legacy", "id")]);
      var st := Subtype(legacy, "SELECT id, legacy FROM users WHERE id = ?");
      var r := Load(New(), st, map["id" := IntValue(1), "legacy" := IntValue(7)]);
      && r.mapper.loadedMap == map[1 := r.entity]
      && Identifies(r.entity, 7)
      && !KeysAreIds(r.mapper)
  {
    var legacy := DataMap(DomainClass("User", map[]), "users", "id, legacy", [ColumnMap("legacy", "id")]);
    assert LastWriter(legacy.columnMaps, 0);
  }
}
