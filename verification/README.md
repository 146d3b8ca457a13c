# Data Mapper with Identity Map — a Dafny model

This project models `AbstractMapper`, the engine of a PHP Data Mapper. A
Data Mapper moves rows of a relational table into in-memory domain objects.
This one does four things:

- It loads its entity metadata (the `DataMap`: table, projection, column
  maps, entity type) lazily and memoizes it.
- It answers find-by-id from an identity map (`loadedMap`) before it builds
  or runs any SQL.
- It hydrates rows into entities. An id that is already cached yields the
  cached instance. A new id gets a blank instance, its id and mapped fields,
  and a place in the cache.
- It loads whole result sets in row order.

Every driver failure (a `PDOException`) is re-thrown as one `SQLException`
that carries the driver's message and its code cast to an integer.

The model is functional. A mapper's state is an immutable record (`DataMapper.Mapper`):

- the memoized `Option<DataMap>`;
- the identity map `map<int, Entity>`;
- the ref the next allocated instance gets (an entity's `ref` stands for its
  identity as an object);
- how often the metadata loader ran;
- the log of every call made on the connection.

Every operation returns its result together with the new state. The
connection is an oracle (`Database.Connection`). Its `prepare`, `bind` and
`execute` each either succeed or raise a driver error. `Database.Run` makes
these calls in protocol order and stops at the first failure.

Files:
- `wrappers.dfy` — `Option`, `Result`, `IsPrefix`.
- `php.dfy` — the PHP semantics the engine relies on. It models the `(int)`
  cast of a string and `sprintf` with `%s`.
- `metadata.dfy` — values, rows, column maps, data map, entities, and what
  "hydrated" means.
- `database.dfy` — the connection oracle, the call log and the
  prepare/bind/execute protocol.
- `mapper.dfy` — the engine: `GetDataMap`, `Load`, `LoadFields`, `LoadAll`,
  `AbstractFind`, `FindMany`, `FindObjectsWhere` and the error translation.
- `sessions.dfy` — properties over a mapper's lifetime: the invariant, cache
  precedence, identity uniqueness and row order.

Three behaviours of the code worth knowing:
- `findObjectsWhere` passes its bind values to `executeQuery` rather than
  binding them one by one (AbstractMapper.php:48). The model records them as
  execute arguments.
- The error code is not kept verbatim. It goes through PHP's `(int)` cast
  (AbstractMapper.php:53). A numeric code survives: the SQLSTATE "23000"
  becomes 23000. A SQLSTATE whose leading digits are followed by a letter
  other than `e`/`E` keeps only those digits: "42S02" becomes 42. One that
  starts with a letter becomes 0: "HY000".
- The id is one of the entity's properties. `load` sets it with `setId` and
  then applies every column map (AbstractMapper.php:107-108). A column map
  whose field is `id` therefore overwrites it. When that column map reads a
  column other than `id`, the entity is cached under the row's id while
  carrying another id. The identity map then no longer keys entities by
  their ids. The model keeps this behaviour: ids equal keys
  (`DataMapper.KeysAreIds`) only while the column maps write the id
  property from the `id` column alone (`Metadata.KeepsId`).

## Model

| member | source | states |
|---|---|---|
| DataMapper.New | src/DataSource/DataMapper/AbstractMapper.php:17-30 | A new mapper has no data map, an empty identity map and an empty call log. It satisfies the mapper invariant, and ids equal keys |
| DataMapper.GetDataMap | src/DataSource/DataMapper/AbstractMapper.php:32-35 | The first access runs the loader once and memoizes its data map. With a data map already memoized, it returns that value and the state is unchanged. The invariant is kept and the loader count never exceeds 1 |
| DataMapper.GetDataMapMemoized | src/DataSource/DataMapper/AbstractMapper.php:34 | A second metadata access returns what the first returned and changes nothing. The loader has run at most once |
| DataMapper.LoadFields | src/DataSource/DataMapper/AbstractMapper.php:123-128 | Applying the column maps in order adds every mapped field, the id property included. An unmapped field keeps its value. Each mapped field holds the row's value for the last column map that writes it. The instance stays the same instance |
| Metadata.HydratedIdentifies | src/DataSource/DataMapper/AbstractMapper.php:106-108 | An instance whose id was set from the row and that then had every column map applied still carries the row's id, provided the only column maps writing the id property read the `id` column |
| DataMapper.Load | src/DataSource/DataMapper/AbstractMapper.php:99-112 | A cached id returns the cached instance and leaves the whole state unchanged; the row's other values are ignored. An uncached id returns a new instance: its id set from the row, then every column map applied. The identity map becomes the old map plus exactly that entry under the row's id. No connection call is made. The invariant is kept. When the column maps leave the id alone, ids keep equal to keys and the instance carries the row's id |
| DataMapper.LoadAll | src/DataSource/DataMapper/AbstractMapper.php:114-121 | Returns one entity per row, makes no connection call, keeps the invariant and only grows the identity map. Ids keep equal to keys when the column maps leave the id alone. When every row's id is already cached, it returns the cached instances and leaves the state exactly as it was: no metadata load, no allocation |
| DataMapper.LoadAllLoadsRows | src/DataSource/DataMapper/AbstractMapper.php:114-121 | Element i is the instance cached under row i's id. The identity map grows by exactly the rows' ids. Each id not cached before is hydrated from the first row that carries it, as a new instance. When the column maps leave the id alone, element i carries row i's id |
| DataMapper.Translate | src/DataSource/DataMapper/AbstractMapper.php:50-56 | A driver error becomes an `SqlException` with the same message. An integer code is kept unchanged |
| DataMapper.TranslateSqlState | src/DataSource/DataMapper/AbstractMapper.php:71-77 | A SQLSTATE code that starts with an integer's digits is re-thrown with that integer as its code, when no digit, decimal point or exponent mark follows them |
| DataMapper.AbstractFind | src/DataSource/DataMapper/AbstractMapper.php:59-78 | A cached id returns the cached instance and makes no prepare, bind or execute call. Otherwise the find statement runs with the id bound at position 1, and its first row is loaded. The identity map becomes the old map plus exactly the entry for that row's id. If that id was cached, the result is the cached instance and only the call log changes. If not, the result is a new instance hydrated from the row, exactly one ref is allocated for it, and the data map is memoized. A driver failure becomes the translated `SqlException`. No row at all gives `EntityNotFound`. In both cases only the call log changes: no metadata load, no allocation, no cache entry |
| DataMapper.FindMany | src/DataSource/DataMapper/AbstractMapper.php:80-97 | The statement source's SQL is prepared and all its parameters are bound in order before it executes. The rows are loaded in order, with the same guarantees as `LoadAll`: when every row's id is already cached, only the call log changes, with no metadata load and no allocation. A failure at any step becomes the translated `SqlException`, and only the call log changes |
| DataMapper.SelectSql | src/DataSource/DataMapper/AbstractMapper.php:39-44 | The `sprintf` of the SELECT template is exactly "SELECT " + projection + " FROM " + table + " WHERE " + clause |
| DataMapper.FindObjectsWhere | src/DataSource/DataMapper/AbstractMapper.php:37-57 | Memoizes the data map before anything runs, even when the query then fails. It prepares "SELECT projection FROM table WHERE clause" and executes it with the bind values. The rows are loaded in order; when every row's id is already cached, the state differs from the start only by the memoized data map and the call log. Or the failure is translated, and the state differs from the start only by the memoized data map and the call log |
| Php.IntCastOfRendering | src/DataSource/DataMapper/AbstractMapper.php:53 | PHP's `(int)` cast of an integer's decimal rendering returns that integer, when no digit, decimal point or exponent mark follows it |
| Php.IntCastOfDigits | src/DataSource/DataMapper/AbstractMapper.php:74 | A string made only of digits casts to the number it denotes |
| Php.IntCastOfNonNumeric | src/DataSource/DataMapper/AbstractMapper.php:93 | A string that starts with neither whitespace, a sign, a digit nor a decimal point, such as the SQLSTATE "HY000", casts to 0 |
| Php.SprintfThreeConversions | src/DataSource/DataMapper/AbstractMapper.php:39-44 | A format made of three `%`-free literals, each followed by `%s`, interleaves the literals with its three arguments taken verbatim |
| Database.BindAll | src/DataSource/DataMapper/AbstractMapper.php:84-86 | Binding reports success iff the connection accepts every parameter. Otherwise it names the first refused parameter and that parameter's error |
| Database.Run | src/DataSource/DataMapper/AbstractMapper.php:83-87 | The calls made are a prefix of prepare, then every bind in order, then execute. Every call before the last one succeeded. A failure is the error of the last call made. A success is the complete protocol with the rows that execute returned |
| Database.ExecuteFollowsEveryBind | src/DataSource/DataMapper/AbstractMapper.php:83-87 | Whenever execute is called, the statement was prepared first and every parameter was bound before it, in order |
| MapperSessions.Step | src/DataSource/DataMapper/AbstractMapper.php:21 | Every operation keeps the invariant: refs are unique and already handed out, and the loader ran iff metadata is memoized. Every operation only grows the state: no cached entry is removed or replaced. The data map in use never changes. Each key keeps mapping to an entity with that id while the column maps leave the id alone |
| MapperSessions.RunSession | src/DataSource/DataMapper/AbstractMapper.php:19-35 | After any sequence of operations the state is valid and extends the start state. The metadata loader has run at most once. Ids still equal keys if they did at the start and the column maps leave the id alone |
| MapperSessions.CachePrecedence | src/DataSource/DataMapper/AbstractMapper.php:61-63 | Once an id is cached, a find for it after any operations and against any database contents returns the cached instance. The state, call log included, is unchanged |
| MapperSessions.SameInstanceForSameId | src/DataSource/DataMapper/AbstractMapper.php:59-63 | Take a successful find for an id that was cached or whose first row carries that id. A later find for that id returns the same instance, whatever happened in between and however the table changed |
| MapperSessions.LoadAllInRowOrder | src/DataSource/DataMapper/AbstractMapper.php:116-118 | The i-th entity of a multi-row load is what `Load` gives for row i in the state left by the rows before it |
| MapperSessions.LoadAllSharedIds | src/DataSource/DataMapper/AbstractMapper.php:114-121 | Rows that share an id yield the very same instance at each of their positions |
| MapperSessions.StaleRowIgnored | src/DataSource/DataMapper/AbstractMapper.php:101-104 | Take a users mapper. Row (1, "Ada") hydrates an instance with id 1 named "Ada". A later row (1, "Changed") yields that same instance, still "Ada", and leaves the mapper unchanged |
| MapperSessions.RemappedIdMisfiles | src/DataSource/DataMapper/AbstractMapper.php:106-109 | Take a column map that writes the id property from column `legacy`. Row (id 1, legacy 7) yields an instance whose id is 7, cached under key 1, so ids no longer equal keys |

## Left out

- `src/WebPresentation/Forward.php` is not modelled. It checks that a file exists, buffers output, includes a template and writes a response stream. All of that is I/O with no logic to state.
- PDO, `Connection` and `Statement` internals are not modelled; the connection is an oracle. The meaning of the SQL text, including injection through the caller's WHERE clause, is outside the model. `Connection.php`, `DataMap.php`, `ColumnMap.php`, `StatementSource.php` and `DomainObject.php` are not part of this model. Their roles are datatypes here.
- The exception chain (the previous-cause argument) is not modelled. An `SqlException` carries only its message and code.
- `newInstanceWithoutConstructor` is replaced by an abstract allocator. The entity type's descriptor (`DomainClass`) holds a blank instance's fields.
- Zero rows in `abstractFind` are a modelling decision. The source calls `load($rs->current())` with no current row. That raises a `TypeError` inside the `try` block, and `catch (PDOException)` does not catch it. The model returns `EntityNotFound(id)` and leaves the identity map unchanged.
- `load` and `loadAll` have two preconditions. A row must carry an integer `id`. A row that is actually hydrated must carry every mapped column. The model does not cover PHP's undefined-index behaviour, PHP's coercion of numeric-string array keys, or string ids handed to the `int` setter.
- Php.IntCastOfRendering: states the cast only when no digit, decimal point or exponent mark follows the rendering. PHP reads "22E01" as 220 and "1.5e3" as 1500, which the model does not.
- DataMapper.TranslateSqlState: states the translated code only for SQLSTATEs whose leading digits are followed by no decimal point or exponent mark, for the same reason.
- Php.IntCastOfNonNumeric: states 0 only for strings not starting with a decimal point, since PHP casts ".5e3" to 500.
- Php.IntCastOfDigits: states the value without PHP's saturation at the 64-bit limits.
- Php.IntCast: exponent forms such as "1e3" (which PHP casts to 1000) are not modelled; the model reads only the leading integer digits. Saturation at the 64-bit integer limits is not modelled either.
- Php.Sprintf: only formats in which every `%` starts a `%s` conversion are modelled; `%%` and the other conversions are not. The mapper's format uses only `%s`.
- PHP's 64-bit integer width for ids and codes is not modelled; integers are unbounded.
- Caller-side mutation of a handed-out instance is not modelled. Entities are immutable records identified by their `ref`. In PHP the identity map hands out shared mutable objects, and a caller's later writes to one show up in every later find for its id.
- Concurrency and resource release are not modelled. The engine is single-threaded and synchronous, and cursors are materialized as sequences (`ArrayIterator` becomes `seq`).
