/** The tables and the transactions the repository layer runs against them.
    Every function is one indivisible transaction. */
module Store {
  import opened Domain

  datatype Error =
    | NotFound | InvalidInput | DecisionLocked | NotDecisionOwner | ReviewRole | SeparationOfDuty
    | InvalidTransition | VersionConflict | DuplicateCode | RevisionExists | StorageFault | AuditFault

  /** `rows` keeps soft-deleted rows; `revisions` holds each decision's chain in insertion order. */
  datatype Db = Db(rows: map<Key, Row>, revisions: map<Key, seq<Revision>>)

  datatype DbResult = DbOk(db: Db) | DbErr(error: Error)

  function RevisionsOf(db: Db, key: Key): seq<Revision> {
    if key in db.revisions then db.revisions[key] else []
  }

  /** Reads, updates and deletes see live rows only. */
  function Fetch(db: Db, key: Key): Option<Row> {
    if key in db.rows && !db.rows[key].deleted then Some(db.rows[key]) else None
  }

  /** The unique index on codes also covers soft-deleted rows. */
  predicate CodeTaken(rows: map<Key, Row>, agg: Aggregate, code: string) {
    exists k :: k in rows && k.agg == agg && rows[k].code == code
  }

  /** The unique index on (decision, version). */
  predicate VersionTaken(revisions: seq<Revision>, version: nat) {
    exists i :: 0 <= i < |revisions| && revisions[i].version == version
  }

  /** What an UPDATE writes: every column of `item` except the ones it omits. */
  function Merge(row: Row, item: Row): Row {
    item.(code := row.code, createdAt := row.createdAt, preparedBy := row.preparedBy, deleted := row.deleted)
  }

  function AppendRevision(db: Db, key: Key, revision: Revision): DbResult {
    if key.agg != PriorityDecision then DbOk(db)
    else if VersionTaken(RevisionsOf(db, key), revision.version) then DbErr(RevisionExists)
    else DbOk(db.(revisions := db.revisions[key := RevisionsOf(db, key) + [revision]]))
  }

  function InsertTx(db: Db, key: Key, item: Row, revision: Revision): DbResult {
    if CodeTaken(db.rows, key.agg, item.code) then DbErr(DuplicateCode)
    else AppendRevision(db.(rows := db.rows[key := item]), key, revision)
  }

  function UpdateTx(db: Db, key: Key, expected: nat, item: Row, revision: Revision): DbResult {
    var row := Fetch(db, key);
    if row.None? || row.value.version != expected then DbErr(VersionConflict)
    else AppendRevision(db.(rows := db.rows[key := Merge(row.value, item)]), key, revision)
  }

  function DeleteTx(db: Db, key: Key): DbResult {
    var row := Fetch(db, key);
    if row.None? then DbErr(NotFound)
    else DbOk(db.(rows := db.rows[key := row.value.(deleted := true)]))
  }
}
