/**
 * The database as the mapper sees it: a connection that prepares a
 * statement, binds parameters to it and executes it, each call either
 * succeeding or raising a driver error (a PDOException), and the calls made.
 */
module Database {
  import opened Wrappers
  import opened Metadata

  /** A driver error code: an integer, or a SQLSTATE string such as "42S02". */
  datatype ErrorCode = IntCode(n: int) | SqlState(state: string)

  /** A driver-level failure: message and code. */
  datatype DriverError = DriverError(message: string, code: ErrorCode)

  /** A bind parameter: 1-based position or name. */
  datatype ParamKey = Position(index: int) | Name(name: string)

  datatype Binding = Binding(key: ParamKey, value: Value)

  /** A prebuilt parameterized statement: SQL text and its parameters in order. */
  datatype StatementSource = StatementSource(sql: string, parameters: seq<Binding>)

  /**
   * The connection, as an oracle. `prepare` and `bind` answer with the error
   * they raise, if any; `execute` answers with the rows or the error.
   */
  datatype Connection = Connection(
    prepare: string -> Option<DriverError>,
    bind: (string, Binding) -> Option<DriverError>,
    execute: (string, seq<Binding>, seq<Value>) -> Result<seq<Row>, DriverError>)

  /** One call made on the connection. */
  datatype Call =
    | Prepare(sql: string)
    | Bind(sql: string, binding: Binding)
    | Execute(sql: string, bindings: seq<Binding>, args: seq<Value>)

  /** What running one statement produced: rows or an error, and the calls it made. */
  datatype Exchange = Exchange(result: Result<seq<Row>, DriverError>, calls: seq<Call>)

  /** The error the connection raises for a call, if it raises one. */
  function CallError(conn: Connection, call: Call): Option<DriverError> {
    match call
    case Prepare(sql) => conn.prepare(sql)
    case Bind(sql, b) => conn.bind(sql, b)
    case Execute(sql, bs, args) =>
      match conn.execute(sql, bs, args)
      case Success(_) => None
      case Failure(e) => Some(e)
  }

  /** One bind call per binding, in order. */
  function BindCalls(sql: string, bindings: seq<Binding>): (calls: seq<Call>)
    ensures |calls| == |bindings|
    ensures forall i :: 0 <= i < |bindings| ==> calls[i] == Bind(sql, bindings[i])
  {
    if bindings == [] then [] else [Bind(sql, bindings[0])] + BindCalls(sql, bindings[1..])
  }

  /** The full exchange for a statement: prepare, bind every parameter, execute. */
  function Protocol(sql: string, bindings: seq<Binding>, args: seq<Value>): seq<Call> {
    [Prepare(sql)] + BindCalls(sql, bindings) + [Execute(sql, bindings, args)]
  }

  /** How binding a statement's parameters ended. */
  datatype BindOutcome = AllBound | BindFailed(at: nat, error: DriverError)

  /** Binds the parameters in order, stopping at the first one the connection refuses. */
  function BindAll(conn: Connection, sql: string, bindings: seq<Binding>): (r: BindOutcome)
    ensures r.AllBound? <==> forall i :: 0 <= i < |bindings| ==> conn.bind(sql, bindings[i]).None?
    ensures r.BindFailed? ==>
      && r.at < |bindings|
      && conn.bind(sql, bindings[r.at]) == Some(r.error)
      && forall i :: 0 <= i < r.at ==> conn.bind(sql, bindings[i]).None?
  {
    if bindings == [] then AllBound
    else
      match conn.bind(sql, bindings[0])
      case Some(e) => BindFailed(0, e)
      case None =>
        match BindAll(conn, sql, bindings[1..])
        case AllBound => AllBound
        case BindFailed(at, e) => BindFailed(at + 1, e)
  }

  /**
   * Runs a statement: prepare, bind each parameter, execute with `args`. The
   * calls made are a prefix of the full protocol that stops at the first
   * failing call, whose error is the result; every call before it succeeded.
   */
  function Run(conn: Connection, sql: string, bindings: seq<Binding>, args: seq<Value>): (x: Exchange)
    ensures IsPrefix(x.calls, Protocol(sql, bindings, args)) && x.calls != []
    ensures forall k :: 0 <= k < |x.calls| - 1 ==> CallError(conn, x.calls[k]).None?
    ensures x.result.Failure? ==> CallError(conn, x.calls[|x.calls| - 1]) == Some(x.result.error)
    ensures x.result.Success? ==>
      && x.calls == Protocol(sql, bindings, args)
      && conn.execute(sql, bindings, args) == x.result
    ensures x.calls != Protocol(sql, bindings, args) ==> x.result.Failure?
  {
    match conn.prepare(sql)
    case Some(e) => Exchange(Failure(e), [Prepare(sql)])
    case None =>
      match BindAll(conn, sql, bindings)
      case BindFailed(at, e) =>
        var calls := [Prepare(sql)] + BindCalls(sql, bindings[..at + 1]);
        assert calls == Protocol(sql, bindings, args)[..|calls|];
        Exchange(Failure(e), calls)
      case AllBound =>
        Exchange(conn.execute(sql, bindings, args), Protocol(sql, bindings, args))
  }

  /**
   * Whenever the connection executed a statement, it had first prepared it
   * and bound every one of its parameters, in order.
   */
  lemma ExecuteFollowsEveryBind(conn: Connection, sql: string, bindings: seq<Binding>, args: seq<Value>)
    ensures var x := Run(conn, sql, bindings, args);
      forall k :: 0 <= k < |x.calls| && x.calls[k].Execute? ==>
        && k == |bindings| + 1
        && x.calls[0] == Prepare(sql)
        && (forall i :: 0 <= i < |bindings| ==> x.calls[1 + i] == Bind(sql, bindings[i]))
  {
    var x := Run(conn, sql, bindings, args);
    var p := Protocol(sql, bindings, args);
    forall k | 0 <= k < |x.calls| && x.calls[k].Execute?
      ensures k == |bindings| + 1
    {
      assert x.calls[k] == p[k];
    }
    forall i | 0 <= i < |bindings| && |bindings| + 1 < |x.calls|
      ensures x.calls[1 + i] == Bind(sql, bindings[i])
    {
      assert x.calls[1 + i] == p[1 + i];
    }
  }
}
