/**
 * `ResultRepository`: saved intake results keyed by `request_id`, with a
 * time-to-live stamp. The DynamoDB table becomes an optional map: absent
 * when no table name is configured or connecting failed. A backend error
 * is a flag the caller passes in; it turns into `False` / `None`, never an
 * exception.
 */
module ResultRepo {
  import opened Py

  const DefaultTtlSeconds := 86400

  /** The items of the table, by `request_id`. */
  type Table = map<string, Doc>

  /** `item = dict(result); item["request_id"] = request_id; item["ttl"] = expires_at` */
  function Stamp(result: Doc, requestId: string, expiresAt: int): (item: Doc)
    ensures "request_id" in item && item["request_id"] == JStr(requestId)
    ensures "ttl" in item && item["ttl"] == JInt(expiresAt)
    ensures forall k :: k != "request_id" && k != "ttl" ==>
              (k in item <==> k in result) && (k in result ==> item[k] == result[k])
  {
    result["request_id" := JStr(requestId)]["ttl" := JInt(expiresAt)]
  }

  /** Stamping again (as an update re-saves a fetched item) only refreshes the two stamped keys. */
  lemma RestampRefreshes(result: Doc, requestId: string, first: int, second: int)
    ensures Stamp(Stamp(result, requestId, first), requestId, second) == Stamp(result, requestId, second)
  {
    var a := Stamp(Stamp(result, requestId, first), requestId, second);
    var b := Stamp(result, requestId, second);
    assert a.Keys == b.Keys;
    assert forall k :: k in a ==> a[k] == b[k];
  }

  /** `table_name or os.getenv("RESULTS_TABLE", "").strip()`: only the environment value is stripped. */
  function TableName(arg: Option<string>, env: Option<string>): (r: string)
    ensures arg.Some? && arg.value != "" ==> r == arg.value
  {
    if arg.Some? && arg.value != "" then arg.value else Strip(env.GetOr(""))
  }

  /** An explicit table name wins over the environment, whatever the environment says. */
  lemma ExplicitTableNameWins(arg: string, env1: Option<string>, env2: Option<string>)
    requires arg != ""
    ensures TableName(Some(arg), env1) == TableName(Some(arg), env2) == arg
  {
  }

  /** With no explicit name, an unset or blank `RESULTS_TABLE` leaves the repository without a table. */
  lemma BlankEnvironmentMeansNoTable(env: Option<string>)
    requires env.None? || forall i :: 0 <= i < |env.value| ==> IsSpace(env.value[i])
    ensures TableName(None, env) == ""
  {
    if env.Some? {
      StripAllSpace(env.value);
    }
  }

  /** What `save` leaves behind: the new table and the returned flag. */
  datatype SaveResult = SaveResult(table: Option<Table>, ok: bool)

  /** `save(request_id, result)` as a function of the table before it. */
  function Saved(table: Option<Table>, requestId: string, result: Doc, now: int, ttlEnv: Option<int>, fails: bool): SaveResult {
    if table.None? then SaveResult(table, false)
    else if fails then SaveResult(table, false)
    else SaveResult(Some(table.value[requestId := Stamp(result, requestId, now + ttlEnv.GetOr(DefaultTtlSeconds))]), true)
  }

  /** `get(request_id)` as a function of the table. */
  function Fetched(table: Option<Table>, requestId: string, fails: bool): Option<Doc> {
    if table.None? || fails then None
    else if requestId in table.value then Some(table.value[requestId])
    else None
  }

  /** Without a table, `save` reports failure and `get` finds nothing, whatever the backend would do. */
  lemma NoTableDegrades(requestId: string, result: Doc, now: int, ttlEnv: Option<int>, fails: bool, getFails: bool)
    ensures Saved(None, requestId, result, now, ttlEnv, fails) == SaveResult(None, false)
    ensures Fetched(None, requestId, getFails) == None
  {
  }

  /** `save` returns True exactly when the table exists and the write goes through. */
  lemma SaveSucceedsIff(table: Option<Table>, requestId: string, result: Doc, now: int, ttlEnv: Option<int>, fails: bool)
    ensures Saved(table, requestId, result, now, ttlEnv, fails).ok <==> table.Some? && !fails
    ensures !Saved(table, requestId, result, now, ttlEnv, fails).ok ==> Saved(table, requestId, result, now, ttlEnv, fails).table == table
  {
  }

  /** Round trip: what `get` returns after a successful `save` is the result plus `request_id` and `ttl`. */
  lemma SaveThenFetch(table: Table, requestId: string, result: Doc, now: int, ttlEnv: Option<int>)
    ensures var s := Saved(Some(table), requestId, result, now, ttlEnv, false);
      && s.ok
      && Fetched(s.table, requestId, false) == Some(Stamp(result, requestId, now + ttlEnv.GetOr(DefaultTtlSeconds)))
  {
  }

  /** A second save under the same key replaces the whole item; other keys are untouched. */
  lemma SecondSaveReplaces(table: Table, requestId: string, first: Doc, second: Doc, now1: int, now2: int, ttlEnv: Option<int>, other: string)
    requires other != requestId
    ensures var t1 := Saved(Some(table), requestId, first, now1, ttlEnv, false).table;
      var t2 := Saved(t1, requestId, second, now2, ttlEnv, false).table;
      && Fetched(t2, requestId, false) == Some(Stamp(second, requestId, now2 + ttlEnv.GetOr(DefaultTtlSeconds)))
      && Fetched(t2, other, false) == Fetched(Some(table), other, false)
  {
  }

  class ResultRepository {
    const tableName: string
    var table: Option<Table>

    /**
     * `ResultRepository(table_name)`: `backend` is what the named table
     * holds, `connectFails` whether creating the table handle raises.
     */
    constructor(tableNameArg: Option<string>, envTable: Option<string>, backend: Table, connectFails: bool)
      ensures tableName == TableName(tableNameArg, envTable)
      ensures table == if tableName != "" && !connectFails then Some(backend) else None
    {
      var name := TableName(tableNameArg, envTable);
      tableName := name;
      table := None;
      if name != "" {
        if connectFails {
          table := None;
        } else {
          table := Some(backend);
        }
      }
    }

    /** `save(request_id, result)`, with `int(time.time())` and `RESULT_TTL_SECONDS` passed in. */
    method Save(requestId: string, result: Doc, now: int, ttlEnv: Option<int>, fails: bool) returns (ok: bool)
      modifies this
      ensures SaveResult(table, ok) == Saved(old(table), requestId, result, now, ttlEnv, fails)
    {
      if table.None? {
        return false;
      }
      var ttlSeconds := ttlEnv.GetOr(DefaultTtlSeconds);
      var item := result;
      item := item["request_id" := JStr(requestId)];
      item := item["ttl" := JInt(now + ttlSeconds)];
      if fails {
        return false;
      }
      table := Some(table.value[requestId := item]);
      return true;
    }

    /** `get(request_id)`. */
    method Get(requestId: string, fails: bool) returns (item: Option<Doc>)
      ensures item == Fetched(table, requestId, fails)
    {
      if table.None? {
        return None;
      }
      if fails {
        return None;
      }
      if requestId in table.value {
        return Some(table.value[requestId]);
      }
      return None;
    }
  }
}
