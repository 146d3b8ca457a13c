/**
 * What a mapper moves and the metadata it moves it by: rows as a query hands
 * them back, the column maps and data map that describe an entity type, and
 * the domain objects the mapper builds.
 */
module Metadata {

  /** A scalar column value as the driver hands it over. */
  datatype Value = IntValue(n: int) | TextValue(s: string) | NullValue

  /** One result row: column name to value. */
  type Row = map<string, Value>

  /** The column every hydrated row is read for first: the entity's identifier. */
  const IdColumn: string := "id"

  /** Binds one column of a row to one field of an entity (the field setter). */
  datatype ColumnMap = ColumnMap(columnName: string, fieldName: string)

  /**
   * The descriptor of the entity type: the fields of an instance allocated
   * without running its constructor.
   */
  datatype DomainClass = DomainClass(name: string, blankFields: map<string, Value>)

  /** Table, projection, column maps and entity type of one mapper. */
  datatype DataMap = DataMap(
    domainClass: DomainClass,
    tableName: string,
    columnList: string,
    columnMaps: seq<ColumnMap>)

  /** The property `setId` writes; a column map whose field is `id` writes it as well. */
  const IdField: string := "id"

  /**
   * A domain object: its properties, the id among them. `ref` stands for its
   * identity as an instance: the mapper gives each allocation a ref of its
   * own, so two entities are the same instance exactly when they are equal.
   */
  datatype Entity = Entity(ref: nat, fields: map<string, Value>)

  /** The row carries an integer `id` column. */
  predicate HasId(row: Row) {
    IdColumn in row && row[IdColumn].IntValue?
  }

  function IdOf(row: Row): int
    requires HasId(row)
  {
    row[IdColumn].n
  }

  /** The row carries every column the column maps read. */
  predicate HasColumns(row: Row, cms: seq<ColumnMap>) {
    forall i :: 0 <= i < |cms| ==> cms[i].columnName in row
  }

  /** The row can be hydrated with the data map: it has an id and every mapped column. */
  predicate Fits(row: Row, dm: DataMap) {
    HasId(row) && HasColumns(row, dm.columnMaps)
  }

  /** Allocation without the constructor: the blank fields, nothing set yet. */
  function NewInstance(cls: DomainClass, ref: nat): Entity {
    Entity(ref, cls.blankFields)
  }

  function SetId(e: Entity, id: int): Entity {
    e.(fields := e.fields[IdField := IntValue(id)])
  }

  /** The entity's id property holds `id`. */
  predicate Identifies(e: Entity, id: int) {
    IdField in e.fields && e.fields[IdField] == IntValue(id)
  }

  /** The column map's field setter applied to one value. */
  function SetField(e: Entity, cm: ColumnMap, v: Value): Entity {
    e.(fields := e.fields[cm.fieldName := v])
  }

  /** The fields some column map writes. */
  function MappedFields(cms: seq<ColumnMap>): set<string> {
    set i | 0 <= i < |cms| :: cms[i].fieldName
  }

  /** No column map after the `i`-th writes the same field, so its write is the one that stays. */
  predicate LastWriter(cms: seq<ColumnMap>, i: int)
    requires 0 <= i < |cms|
  {
    forall j :: i < j < |cms| ==> cms[j].fieldName != cms[i].fieldName
  }

  /** Every mapped field has a column map whose write stays. */
  lemma {:induction false} LastWriterExists(cms: seq<ColumnMap>, f: string)
    requires f in MappedFields(cms)
    ensures exists i :: 0 <= i < |cms| && cms[i].fieldName == f && LastWriter(cms, i)
    decreases |cms|
  {
    var last := |cms| - 1;
    if cms[last].fieldName != f {
      var init := cms[..last];
      var i :| 0 <= i < |cms| && cms[i].fieldName == f;
      assert init[i] == cms[i];
      LastWriterExists(init, f);
      var k :| 0 <= k < |init| && init[k].fieldName == f && LastWriter(init, k);
      assert cms[k] == init[k];
      assert LastWriter(cms, k) by {
        forall j | k < j < |cms| ensures cms[j].fieldName != f {
          if j < last {
            assert cms[j] == init[j];
          }
        }
      }
    }
  }

  /** The column maps write the id property only from the row's `id` column. */
  predicate KeepsId(cms: seq<ColumnMap>) {
    forall i :: 0 <= i < |cms| && cms[i].fieldName == IdField ==> cms[i].columnName == IdColumn
  }

  /**
   * `after` is `before` with every column map applied in order: the mapped
   * fields are added, unmapped fields keep their value, and each mapped field
   * holds the row's value for the last column map that writes it.
   */
  ghost predicate Assigned(after: map<string, Value>, before: map<string, Value>, row: Row, cms: seq<ColumnMap>)
    requires HasColumns(row, cms)
  {
    && after.Keys == before.Keys + MappedFields(cms)
    && (forall f :: f in before && f !in MappedFields(cms) ==> after[f] == before[f])
    && (forall i :: 0 <= i < |cms| && LastWriter(cms, i) ==> after[cms[i].fieldName] == row[cms[i].columnName])
  }

  /**
   * `e` is a blank instance of the data map's type whose id property was set
   * to the row's id and which then had every column map applied to it.
   */
  ghost predicate Hydrated(e: Entity, row: Row, dm: DataMap)
    requires Fits(row, dm)
  {
    Assigned(e.fields, dm.domainClass.blankFields[IdField := IntValue(IdOf(row))], row, dm.columnMaps)
  }

  /**
   * A hydrated entity keeps the row's id exactly when no column map
   * overwrites it with another value; column maps that write the id property
   * only from the `id` column are one way to ensure that.
   */
  lemma HydratedIdentifies(e: Entity, row: Row, dm: DataMap)
    requires Fits(row, dm) && Hydrated(e, row, dm) && KeepsId(dm.columnMaps)
    ensures Identifies(e, IdOf(row))
  {
    if IdField in MappedFields(dm.columnMaps) {
      LastWriterExists(dm.columnMaps, IdField);
    }
  }
}
