/**
 * The service log table (helpers/logstore/collector.go): inserting a line of
 * a service's stdout or stderr, reading the most recent lines of a service,
 * and the io.Writer that a launched process writes its output to.
 * The SQLite table is modelled by the sequence of its rows in insertion order;
 * ids come from an AUTOINCREMENT counter.
 */
module LogStore {
  import opened Wrappers

  type Byte = bv8

  const StreamStdout: string := "stdout"
  const StreamStderr: string := "stderr"

  /** How many lines a read returns when the caller gives no positive limit. */
  const MaxLogsPerService: int := 500

  datatype ServiceLog = ServiceLog(id: int, serviceId: string, stream: string, message: seq<Byte>, timestamp: int)

  /** The errors of the log store: a write with an unknown stream, and a failed statement. */
  datatype LogError = InvalidStreamType | DatabaseError

  /** GetLogsByService's limit: a negative limit becomes 0, and 0 becomes 500. */
  function NormalizeLimit(limit: int): (effective: int)
    ensures effective > 0
    ensures limit <= 0 ==> effective == MaxLogsPerService
    ensures limit > 0 ==> effective == limit
  {
    var nonNegative := if limit < 0 then 0 else limit;
    if nonNegative == 0 then MaxLogsPerService else nonNegative
  }

  /** The rows of one service, oldest first. */
  function OfService(rows: seq<ServiceLog>, serviceId: string): (own: seq<ServiceLog>)
    ensures |own| <= |rows|
    ensures forall l :: l in own <==> l in rows && l.serviceId == serviceId
  {
    if rows == [] then []
    else (if rows[0].serviceId == serviceId then [rows[0]] else []) + OfService(rows[1..], serviceId)
  }

  /** The last `n` rows of a service, oldest first: what the query is meant to return. */
  function Latest(rows: seq<ServiceLog>, serviceId: string, n: nat): (latest: seq<ServiceLog>)
    ensures |latest| == if n < |OfService(rows, serviceId)| then n else |OfService(rows, serviceId)|
    ensures forall l :: l in latest ==> l in rows && l.serviceId == serviceId
    // they are the newest of the service's rows, oldest first
    ensures latest == OfService(rows, serviceId)[|OfService(rows, serviceId)| - |latest|..]
  {
    var own := OfService(rows, serviceId);
    if |own| <= n then own else own[|own| - n..]
  }

  function Reverse(s: seq<ServiceLog>): (r: seq<ServiceLog>)
    ensures |r| == |s|
  {
    seq(|s|, k requires 0 <= k < |s| => s[|s| - 1 - k])
  }

  /**
   * Taking the first `n` of the newest-first order and reversing them gives
   * the last `n` in table order.
   */
  lemma NewestFirstWindow(own: seq<ServiceLog>, n: nat)
    ensures var newestFirst := Reverse(own);
      Reverse(if |newestFirst| <= n then newestFirst else newestFirst[..n])
        == if |own| <= n then own else own[|own| - n..]
  {
    var newestFirst := Reverse(own);
    var selected := if |newestFirst| <= n then newestFirst else newestFirst[..n];
    var window := if |own| <= n then own else own[|own| - n..];
    assert |Reverse(selected)| == |window|;
    forall k | 0 <= k < |window| ensures Reverse(selected)[k] == window[k] {
    }
  }

  /** Ids strictly increase along the table. */
  predicate Ascending(rows: seq<ServiceLog>) {
    forall i, j :: 0 <= i < j < |rows| ==> rows[i].id < rows[j].id
  }

  lemma {:induction false} OfServiceAscending(rows: seq<ServiceLog>, serviceId: string)
    requires Ascending(rows)
    ensures Ascending(OfService(rows, serviceId))
  {
    if rows != [] {
      OfServiceAscending(rows[1..], serviceId);
      var rest := OfService(rows[1..], serviceId);
      var own := OfService(rows, serviceId);
      if rows[0].serviceId == serviceId {
        assert forall l :: l in rows[1..] ==> rows[0].id < l.id;
        assert forall k :: 0 <= k < |rest| ==> rest[k] in rows[1..];
        assert own == [rows[0]] + rest;
      } else {
        assert own == rest;
      }
    }
  }

  /** The lines a read returns are in ascending id order, i.e. oldest first. */
  lemma LatestAscending(rows: seq<ServiceLog>, serviceId: string, n: nat)
    requires Ascending(rows)
    ensures Ascending(Latest(rows, serviceId, n))
  {
    OfServiceAscending(rows, serviceId);
  }

  /** A line of the service that a read leaves out is older than every line it returns. */
  lemma LatestAreNewest(rows: seq<ServiceLog>, serviceId: string, n: nat, l: ServiceLog)
    requires Ascending(rows)
    requires l in rows && l.serviceId == serviceId && l !in Latest(rows, serviceId, n)
    ensures forall m :: m in Latest(rows, serviceId, n) ==> l.id < m.id
  {
    OfServiceAscending(rows, serviceId);
    var own := OfService(rows, serviceId);
    var i :| 0 <= i < |own| && own[i] == l;
    forall m | m in Latest(rows, serviceId, n) ensures l.id < m.id {
      var j :| |own| - n <= j < |own| && own[j] == m;
    }
  }

  lemma {:induction false} OfServiceAppend(rows: seq<ServiceLog>, e: ServiceLog)
    ensures OfService(rows + [e], e.serviceId) == OfService(rows, e.serviceId) + [e]
  {
    if rows == [] {
      assert [] + [e] == [e];
    } else {
      assert (rows + [e])[1..] == rows[1..] + [e];
      OfServiceAppend(rows[1..], e);
    }
  }

  /** Right after a line is inserted, the service's next read ends with that line. */
  lemma InsertedLineIsRead(rows: seq<ServiceLog>, e: ServiceLog, n: nat)
    requires n > 0
    ensures var latest := Latest(rows + [e], e.serviceId, n); latest != [] && latest[|latest| - 1] == e
  {
    OfServiceAppend(rows, e);
  }

  class ServiceLogDB {
    var rows: seq<ServiceLog>
    var nextId: int

    ghost predicate Valid()
      reads this
    {
      Ascending(rows) && forall l :: l in rows ==> l.id < nextId
    }

    constructor ()
      ensures Valid() && rows == []
    {
      rows := [];
      nextId := 1;
    }

    /**
     * InsertLog: only "stdout" and "stderr" are accepted; the row gets the next
     * id and the current time. `dbOk` is the outcome of the INSERT statement.
     */
    method InsertLog(serviceId: string, stream: string, message: seq<Byte>, now: int, dbOk: bool)
      returns (err: Option<LogError>)
      requires Valid()
      modifies this
      ensures Valid()
      ensures stream != StreamStdout && stream != StreamStderr ==> err == Some(InvalidStreamType)
      ensures (stream == StreamStdout || stream == StreamStderr) && !dbOk ==> err == Some(DatabaseError)
      ensures err.Some? ==> rows == old(rows) && nextId == old(nextId)
      ensures err.None? ==> rows == old(rows) + [ServiceLog(old(nextId), serviceId, stream, message, now)]
      ensures err.None? <==> (stream == StreamStdout || stream == StreamStderr) && dbOk
    {
      if stream != StreamStdout && stream != StreamStderr {
        return Some(InvalidStreamType);
      }
      if !dbOk {
        return Some(DatabaseError);
      }
      rows := rows + [ServiceLog(nextId, serviceId, stream, message, now)];
      nextId := nextId + 1;
      err := None;
    }

    /**
     * GetLogsByService: normalise the limit, select the service's rows newest
     * first up to the limit, then reverse them. `queryOk` is the outcome of
     * the SELECT statement.
     */
    method GetLogsByService(serviceId: string, limit: int, queryOk: bool)
      returns (logs: seq<ServiceLog>, err: Option<LogError>)
      requires Valid()
      ensures queryOk ==> err.None? && logs == Latest(rows, serviceId, NormalizeLimit(limit))
      ensures !queryOk ==> err == Some(DatabaseError) && logs == []
      ensures Ascending(logs)
    {
      if !queryOk {
        return [], Some(DatabaseError);
      }
      err := None;
      var n := NormalizeLimit(limit);
      var newestFirst := Reverse(OfService(rows, serviceId));
      var selected := if |newestFirst| <= n then newestFirst else newestFirst[..n];
      logs := Reverse(selected);
      NewestFirstWindow(OfService(rows, serviceId), n);
      LatestAscending(rows, serviceId, n);
    }

    /** NewWriter: a writer that appends to this table under the given service and stream. */
    method NewWriter(serviceId: string, stream: string) returns (w: ServiceLogger)
      ensures fresh(w) && w.logger == this && w.serviceId == serviceId && w.stream == stream
    {
      w := new ServiceLogger(this, serviceId, stream);
    }
  }

  /** The io.Writer handed to a process: every write becomes one row of its stream. */
  class ServiceLogger {
    const serviceId: string
    const stream: string
    const logger: ServiceLogDB

    constructor (logger: ServiceLogDB, serviceId: string, stream: string)
      ensures this.logger == logger && this.serviceId == serviceId && this.stream == stream
    {
      this.logger := logger;
      this.serviceId := serviceId;
      this.stream := stream;
    }

    /** Write: reports all of `p` written when the insert succeeds, nothing otherwise. */
    method Write(p: seq<Byte>, now: int, dbOk: bool) returns (n: int, err: Option<LogError>)
      requires logger.Valid()
      modifies logger
      ensures logger.Valid()
      ensures err.None? ==> n == |p| && logger.rows == old(logger.rows) + [ServiceLog(old(logger.nextId), serviceId, stream, p, now)]
      ensures err.Some? ==> n == 0 && logger.rows == old(logger.rows)
      ensures err.None? <==> (stream == StreamStdout || stream == StreamStderr) && dbOk
    {
      err := logger.InsertLog(serviceId, stream, p, now, dbOk);
      if err.Some? {
        return 0, err;
      }
      n := |p|;
    }
  }
}
