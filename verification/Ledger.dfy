/** The durable command ledger: one table row per command id, kept by SQLite. */
module Ledger {
  import opened Results
  import opened Text

  /** What the ledger takes from foreign libraries: SHA-256 in hexadecimal and the JSON parser. */
  datatype Library = Library(sha256Hex: string -> string, parse: string -> Result<Json>)

  /** A parsed JSON text, as far as the agent looks into it. */
  datatype Json = Str(text: string) | Object(fields: map<string, Json>) | Other

  /** The texts `running`, `succeeded` and `failed` of the status column; `Foreign` is any other text. */
  datatype Status = Running | Succeeded | Failed | Foreign(text: string)

  /** The identity of a command: trimmed id, trimmed type and payload hash. */
  datatype Key = Key(id: string, commandType: string, payloadHash: string)

  /** Status, output and error text: what a handler reports and what a row stores. */
  datatype Reply = Reply(status: Status, resultJson: string, errorMessage: string)

  datatype Row = Row(
    key: Key,
    resourceKey: Option<string>,
    reply: Reply,
    createdAt: int,
    startedAt: int,
    completedAt: Option<int>,
    updatedAt: int)

  type Table = map<string, Row>

  datatype BeginOrGet = New(row: Row) | Existing(row: Row) | PayloadMismatch(row: Row)

  /** Where a call of `begin_or_get` may be interrupted by the lock or the database. */
  datatype BeginFault = NoFault | LockPoisoned | LoadFails | InsertFails | VerifyFails

  const EMPTY_JSON := "{}"
  const RESTART_ERROR := "agent_restart_before_completion"
  const TARGET_KEYS := ["vps_id", "vm_id", "instance_id", "domain_id", "id"]
  const STILL_RUNNING := Reply(Running, EMPTY_JSON, "")

  function HashPayload(lib: Library, payload: string): string {
    lib.sha256Hex(Trim(payload))
  }

  function KeyOf(lib: Library, commandId: string, commandType: string, payload: string): Key {
    Key(Trim(commandId), Trim(commandType), HashPayload(lib, payload))
  }

  function NormalizeResultJson(value: string): (r: string)
    ensures Trim(r) != ""
    ensures r == value || (Trim(value) == "" && r == EMPTY_JSON)
    ensures Trim(value) != "" ==> r == value
  {
    if Trim(value) == "" then EMPTY_JSON else value
  }

  /** What the ledger keeps of a reported reply. */
  function Stored(reply: Reply): Reply {
    Reply(reply.status, NormalizeResultJson(reply.resultJson), Trim(reply.errorMessage))
  }

  predicate HoldsText(payload: Json, key: string) {
    payload.Object? && key in payload.fields && payload.fields[key].Str?
  }

  predicate HoldsNonBlank(payload: Json, key: string) {
    HoldsText(payload, key) && Trim(payload.fields[key].text) != ""
  }

  /** The trimmed value of the first listed key that holds a non-blank string. */
  function FirstNonBlank(payload: Json, keys: seq<string>): (r: Option<string>)
    ensures r.Some? ==> r.value != "" && Tidy(r.value)
  {
    if keys == [] then None
    else if HoldsNonBlank(payload, keys[0]) then Some(Trim(payload.fields[keys[0]].text))
    else FirstNonBlank(payload, keys[1..])
  }

  /** The value comes from the first listed field that holds a non-blank string; there is none if no field does. */
  lemma {:induction false} FirstNonBlankWins(payload: Json, keys: seq<string>, i: nat)
    requires i <= |keys| && forall j :: 0 <= j < i ==> !HoldsNonBlank(payload, keys[j])
    requires i < |keys| ==> HoldsNonBlank(payload, keys[i])
    ensures FirstNonBlank(payload, keys)
         == if i < |keys| then Some(Trim(payload.fields[keys[i]].text)) else None
  {
    if i == 0 {
    } else {
      assert !HoldsNonBlank(payload, keys[0]);
      FirstNonBlankWins(payload, keys[1..], i - 1);
    }
  }

  /** The key under which the resource of a command is recorded: none if its payload does not parse. */
  function ExtractResourceKey(lib: Library, payload: string): Option<string> {
    match lib.parse(payload)
    case Ok(json) => FirstNonBlank(json, TARGET_KEYS)
    case Err(_) => None
  }

  /** The resource is named by the first of five fields that holds a non-blank string. */
  lemma ResourceIsNamedByFirstField(lib: Library, payload: string, i: nat)
    requires lib.parse(payload).Ok? && i <= 5
    requires var json := lib.parse(payload).value;
             var keys := ["vps_id", "vm_id", "instance_id", "domain_id", "id"];
             && (forall j :: 0 <= j < i ==>
                   !(json.Object? && keys[j] in json.fields && json.fields[keys[j]].Str?
                     && Trim(json.fields[keys[j]].text) != ""))
             && (i < 5 ==> json.Object? && keys[i] in json.fields && json.fields[keys[i]].Str?
                           && Trim(json.fields[keys[i]].text) != "")
    ensures ExtractResourceKey(lib, payload) ==
              if i < 5 then
                var keys := ["vps_id", "vm_id", "instance_id", "domain_id", "id"];
                Some(Trim(lib.parse(payload).value.fields[keys[i]].text))
              else None
  {
    FirstNonBlankWins(lib.parse(payload).value, TARGET_KEYS, i);
  }

  lemma UnparsedPayloadNamesNothing(lib: Library, payload: string)
    requires lib.parse(payload).Err?
    ensures ExtractResourceKey(lib, payload) == None
  {
  }

  function LoadRecord(rows: Table, id: string): Option<Row> {
    if id in rows then Some(rows[id]) else None
  }

  /** The row found under an id was begun by the same command. */
  predicate SameCommand(a: Key, b: Key) {
    a.commandType == b.commandType && a.payloadHash == b.payloadHash
  }

  /** Table and answer after `begin_or_get`. */
  function Begin(rows: Table, key: Key, resourceKey: Option<string>, now: int, fault: BeginFault)
    : (Table, Result<BeginOrGet>)
  {
    if key.id == "" then (rows, Err("command_id is required"))
    else if fault.LockPoisoned? then (rows, Err("command ledger lock poisoned"))
    else if fault.LoadFails? then (rows, Err("load"))
    else match LoadRecord(rows, key.id)
      case Some(row) => (rows, Ok(if SameCommand(row.key, key) then Existing(row) else PayloadMismatch(row)))
      case None =>
        if fault.InsertFails? then (rows, Err("insert"))
        else
          var row := Row(key, resourceKey, STILL_RUNNING, now, now, None, now);
          (rows[key.id := row], if fault.VerifyFails? then Err("verify") else Ok(New(row)))
  }

  function Finished(row: Row, reply: Reply, now: int): Row {
    row.(reply := reply, completedAt := Some(now), updatedAt := now)
  }

  /** Table after `complete`: an update by primary key that looks at no other column. */
  function Complete(rows: Table, id: string, reply: Reply, now: int): Table {
    if id in rows then rows[id := Finished(rows[id], reply, now)] else rows
  }

  ghost predicate SameIdentity(a: Row, b: Row) {
    a.key == b.key && a.resourceKey == b.resourceKey && a.createdAt == b.createdAt && a.startedAt == b.startedAt
  }

  /** The row has been given this reply at this time, and is else as it was. */
  ghost predicate Concluded(before: Row, after: Row, reply: Reply, now: int) {
    SameIdentity(before, after) && after.reply == reply && after.completedAt == Some(now) && after.updatedAt == now
  }

  /** The row under an id, if there is one, has been given this reply; all other rows are as they were. */
  ghost predicate Updated(before: Table, after: Table, id: string, reply: Reply, now: int) {
    && after.Keys == before.Keys
    && (forall other :: other in before && other != id ==> after[other] == before[other])
    && (id in before ==> Concluded(before[id], after[id], reply, now))
  }

  /** Exactly the running rows have been marked failed, each keeping its output. */
  ghost predicate Swept(before: Table, after: Table, now: int) {
    && after.Keys == before.Keys
    && forall id :: id in before ==>
         if before[id].reply.status.Running?
         then Concluded(before[id], after[id],
                        Reply(Failed, before[id].reply.resultJson, "agent_restart_before_completion"), now)
         else after[id] == before[id]
  }

  /** Table after the update that `open` runs over rows left running by an earlier process. */
  function MarkStale(rows: Table, now: int): (marked: Table)
    ensures Swept(rows, marked, now)
    ensures forall id :: id in marked ==> !marked[id].reply.status.Running?
  {
    map id | id in rows ::
      if rows[id].reply.status.Running?
      then Finished(rows[id], rows[id].reply.(status := Failed, errorMessage := RESTART_ERROR), now)
      else rows[id]
  }

  lemma UpdatedIsComplete(before: Table, after: Table, id: string, reply: Reply, now: int)
    requires Updated(before, after, id, reply, now)
    ensures after == Complete(before, id, reply, now)
  {
    assert after.Keys == Complete(before, id, reply, now).Keys;
  }

  /** Rows sit under their own non-empty id; status, output and completion time agree. */
  ghost predicate ValidTable(rows: Table) {
    forall id :: id in rows ==>
      && id != "" && rows[id].key.id == id
      && !rows[id].reply.status.Foreign?
      && (rows[id].reply.status.Running? <==> rows[id].completedAt.None?)
      && (rows[id].reply.status.Running? ==> rows[id].reply == STILL_RUNNING)
  }

  /**
   * The order of a write-once map. Going from `before` to `after` no row is lost, no identity column changes
   * and a row that holds an outcome keeps it for good.
   */
  ghost predicate WriteOnce(before: Table, after: Table) {
    forall id :: id in before ==>
      && id in after
      && SameIdentity(before[id], after[id])
      && (!before[id].reply.status.Running? ==> after[id] == before[id])
  }

  lemma WriteOnceTransitive(a: Table, b: Table, c: Table)
    requires WriteOnce(a, b) && WriteOnce(b, c)
    ensures WriteOnce(a, c)
  {
    forall id | id in a
      ensures id in c && SameIdentity(a[id], c[id]) && (!a[id].reply.status.Running? ==> c[id] == a[id])
    {
      assert id in b && SameIdentity(b[id], c[id]);
    }
  }

  /**
   * The update has no guard on the status column, so on its own it is write-once exactly when it meets no
   * finished row, or stores in it what is already there.
   */
  lemma UpdateIsWriteOnceIffUnfinished(rows: Table, id: string, reply: Reply, now: int)
    ensures WriteOnce(rows, Complete(rows, id, reply, now))
       <==> (id in rows && !rows[id].reply.status.Running? ==> rows[id] == Finished(rows[id], reply, now))
  {
    var after := Complete(rows, id, reply, now);
    if id in rows && WriteOnce(rows, after) {
      assert SameIdentity(rows[id], after[id]);
    }
  }

  lemma BeginKeepsTable(rows: Table, key: Key, resourceKey: Option<string>, now: int, fault: BeginFault)
    requires ValidTable(rows)
    ensures var (after, answer) := Begin(rows, key, resourceKey, now, fault);
            && ValidTable(after) && WriteOnce(rows, after)
            && after.Keys <= rows.Keys + {key.id}
            && (answer.Ok? <==> key.id != "" && !fault.LockPoisoned? && !fault.LoadFails?
                                && (key.id in rows || fault.NoFault?))
            && (answer.Ok? && answer.value.New? <==> key.id != "" && key.id !in rows && fault.NoFault?)
            && (answer.Ok? ==> key.id in after && answer.value.row == after[key.id])
            && (answer.Ok? && answer.value.New? ==>
                  answer.value.row.key == key && answer.value.row.reply == STILL_RUNNING)
            && (answer.Ok? && !answer.value.New? ==>
                  after == rows && (answer.value.Existing? <==> rows[key.id].key == key))
            && (forall id :: id in after && id !in rows ==> after[id].reply == STILL_RUNNING)
  {
  }

  lemma CompleteKeepsTable(rows: Table, id: string, reply: Reply, now: int)
    requires ValidTable(rows) && id in rows && rows[id].reply.status.Running?
    requires reply.status.Succeeded? || reply.status.Failed?
    ensures ValidTable(Complete(rows, id, reply, now)) && WriteOnce(rows, Complete(rows, id, reply, now))
  {
  }

  lemma MarkStaleKeepsTable(rows: Table, now: int)
    requires ValidTable(rows)
    ensures ValidTable(MarkStale(rows, now)) && WriteOnce(rows, MarkStale(rows, now))
    ensures forall id :: id in rows && rows[id].reply.status.Running? ==>
              MarkStale(rows, now)[id].reply == Reply(Failed, EMPTY_JSON, RESTART_ERROR)
  {
  }

  /** The SQLite file; it outlives the process that opened it. */
  class Database {
    var rows: Table

    constructor ()
      ensures rows == map[]
    {
      rows := map[];
    }
  }

  /** One process's handle on the database file. */
  class CommandLedger {
    const db: Database
    const lib: Library

    constructor (db: Database, lib: Library)
      ensures this.db == db && this.lib == lib
    {
      this.db := db;
      this.lib := lib;
    }

    /** Opening fails on a blank path, when the file cannot be prepared, or when the sweep of stale rows fails. */
    static method Open(path: string, db: Database, lib: Library, now: int, prepared: bool, swept: bool)
      returns (r: Result<CommandLedger>)
      modifies db
      ensures r.Ok? <==> Trim(path) != "" && prepared && swept
      ensures r.Ok? ==> r.value.db == db && r.value.lib == lib && fresh(r.value)
      ensures r.Ok? ==> Swept(old(db.rows), db.rows, now)
      ensures r.Ok? ==> forall id :: id in db.rows ==> !db.rows[id].reply.status.Running?
      ensures r.Err? ==> db.rows == old(db.rows)
    {
      if Trim(path) == "" {
        return Err("agent command ledger path is required");
      }
      if !prepared {
        return Err("open command ledger");
      }
      var ledger := new CommandLedger(db, lib);
      if !swept {
        return Err("mark stale rows");
      }
      ledger.MarkStaleRunningFailed(now);
      return Ok(ledger);
    }

    /**
     * The answer and the table for every fault: nothing happens without an id or if the table cannot be read; a row
     * under the trimmed id is handed out as it stands, as existing exactly if trimmed type and payload hash agree;
     * else a running row is inserted, and handed out as new unless the insertion cannot be verified.
     */
    method BeginOrGet(commandId: string, commandType: string, payload: string, now: int, fault: BeginFault)
      returns (r: Result<BeginOrGet>)
      modifies db
      ensures (db.rows, r) == Begin(old(db.rows), KeyOf(lib, commandId, commandType, payload),
                                    ExtractResourceKey(lib, payload), now, fault)
      ensures Trim(commandId) == "" || fault.LockPoisoned? || fault.LoadFails? ==>
                r.Err? && db.rows == old(db.rows)
      ensures var before, id := old(db.rows), Trim(commandId);
              (id != "" && !fault.LockPoisoned? && !fault.LoadFails? && id in before) ==>
                && db.rows == before && r.Ok? && !r.value.New? && r.value.row == before[id]
                && (r.value.Existing? <==> before[id].key.commandType == Trim(commandType)
                                           && before[id].key.payloadHash == lib.sha256Hex(Trim(payload)))
      ensures var before, id := old(db.rows), Trim(commandId);
              (id != "" && !fault.LockPoisoned? && !fault.LoadFails? && id !in before) ==>
                if fault.InsertFails? then r.Err? && db.rows == before
                else
                  && db.rows == before[id := Row(Key(id, Trim(commandType), lib.sha256Hex(Trim(payload))),
                                                 ExtractResourceKey(lib, payload), Reply(Running, "{}", ""),
                                                 now, now, None, now)]
                  && (if fault.VerifyFails? then r.Err? else r == Ok(New(db.rows[id])))
    {
      var id := Trim(commandId);
      if id == "" {
        return Err("command_id is required");
      }
      var key := Key(id, Trim(commandType), HashPayload(lib, payload));
      var resourceKey := ExtractResourceKey(lib, payload);
      if fault.LockPoisoned? {
        return Err("command ledger lock poisoned");
      }
      if fault.LoadFails? {
        return Err("load");
      }
      var found := LoadRecord(db.rows, id);
      if found.Some? {
        if found.value.key.commandType != key.commandType || found.value.key.payloadHash != key.payloadHash {
          return Ok(PayloadMismatch(found.value));
        }
        return Ok(Existing(found.value));
      }
      if fault.InsertFails? {
        return Err("insert");
      }
      db.rows := db.rows[id := Row(key, resourceKey, STILL_RUNNING, now, now, None, now)];
      if fault.VerifyFails? {
        return Err("verify");
      }
      return Ok(New(db.rows[id]));
    }

    /** Only the row under the trimmed id can change, and its completion overwrites no outcome if it is running. */
    method CompleteCommand(commandId: string, reply: Reply, now: int, stored: bool) returns (r: Result<()>)
      modifies db
      ensures r.Ok? <==> stored
      ensures r.Err? ==> db.rows == old(db.rows)
      ensures r.Ok? ==>
        var output := if Trim(reply.resultJson) == "" then "{}" else reply.resultJson;
        Updated(old(db.rows), db.rows, Trim(commandId), Reply(reply.status, output, Trim(reply.errorMessage)), now)
      ensures var before, id := old(db.rows), Trim(commandId);
              (id in before ==> before[id].reply.status.Running?) ==> WriteOnce(before, db.rows)
    {
      if !stored {
        return Err("update");
      }
      var id := Trim(commandId);
      if id in db.rows {
        var row := db.rows[id];
        db.rows := db.rows[id := row.(reply := Stored(reply), completedAt := Some(now), updatedAt := now)];
      }
      return Ok(());
    }

    /** Exactly the running rows are marked; what has been decided stays. */
    method MarkStaleRunningFailed(now: int)
      modifies db
      ensures Swept(old(db.rows), db.rows, now) && WriteOnce(old(db.rows), db.rows)
      ensures forall id :: id in db.rows ==> !db.rows[id].reply.status.Running?
      ensures ValidTable(old(db.rows)) ==> ValidTable(db.rows)
    {
      db.rows := MarkStale(db.rows, now);
    }
  }
}
