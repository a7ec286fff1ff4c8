/** The write protocol as a transition system.  A request runs as separate atomic
    steps - read and check, write transaction, audit, read back - which interleave
    freely with the steps of every other request. */
module Protocol {
  import opened Domain
  import opened Store

  /** A write request.  For an update or a transition, `expected` is the version
      the client sent, which need not be the version the server reads. */
  datatype Request =
    | Create(agg: Aggregate, code: string, fields: Fields, actor: string, role: Role, requestId: string)
    | Update(key: Key, expected: nat, fields: Fields, actor: string, role: Role, requestId: string)
    | Transition(key: Key, expected: nat, target: string, reason: string, actor: string, role: Role, requestId: string)
    | Delete(key: Key, actor: string, role: Role, requestId: string)

  /** An update or a transition: the requests guarded by a version. */
  predicate Guarded(req: Request) { req.Update? || req.Transition? }

  datatype Outcome = Ok(row: Row) | Deleted | Failed(error: Error)

  /** One committed transaction.  `snap` is the row the request had read, `prior`
      the row the transaction found, `next` the row it left. */
  datatype Commit = Commit(rid: nat, req: Request, key: Key, snap: Row, prior: Option<Row>, next: Row)

  datatype Audit = Audit(
    rid: nat, actor: string, requestId: string, action: string, key: Key,
    before: string, after: string, detail: string)

  /** Where a request stands. */
  datatype Pc =
    | Invoked
    | Checked(snap: Row, item: Row, revision: Revision)
    | CheckedDelete(snap: Row)
    | Written(commit: Commit)
    | Logged(key: Key)
    | Done(outcome: Outcome)

  datatype Proc = Proc(req: Request, pc: Pc)

  /** `procs` is indexed by request number; `history` lists the commits in commit
      order.  Both observe the program, which stores neither. */
  datatype State = State(db: Db, audits: seq<Audit>, procs: seq<Proc>, history: seq<Commit>)

  /** `now` is a clock reading, `id` the primary key the database hands out, and
      `fault` says that the storage operation of the step fails without effect. */
  datatype Step =
    | Invoke(req: Request)
    | Read(rid: nat, now: int, fault: bool)
    | Write(rid: nat, id: nat, fault: bool)
    | Log(rid: nat, fault: bool)
    | Reply(rid: nat, fault: bool)

  // ---------- checks and edits made on a snapshot ----------

  predicate Blank(s: string) { Trim(s) == "" }

  predicate ValidFields(agg: Aggregate, code: string, f: Fields) {
    && !Blank(code) && !Blank(f.name) && !Blank(f.facility) && !Blank(f.owner)
    && (agg == PriorityDecision ==> !Blank(f.evidence) && !Blank(f.relatedCode))
  }

  /** The first check a request fails against the row it read, if any. */
  function Check(req: Request, snap: Row): Option<Error>
    requires !req.Create?
  {
    var decision := req.key.agg == PriorityDecision;
    match req
    case Update(key, _, fields, actor, role, _) =>
      if decision && snap.status != DRAFT then Some(DecisionLocked)
      else if decision && actor != snap.preparedBy && role != Admin then Some(NotDecisionOwner)
      else if !ValidFields(key.agg, snap.code, fields) then Some(InvalidInput)
      else None
    case Transition(key, _, target, _, actor, role, _) =>
      if decision && role != Reviewer && role != Admin then Some(ReviewRole)
      else if decision && actor == snap.preparedBy then Some(SeparationOfDuty)
      else if !CanTransition(Transitions(key.agg), snap.status, Trim(target)) then Some(InvalidTransition)
      else None
    case Delete(_, _, _, _) =>
      if decision && snap.status != DRAFT then Some(DecisionLocked) else None
  }

  /** The row a guarded request wants to store. */
  function Edited(req: Request, snap: Row, now: int): Row
    requires Guarded(req)
  {
    var item := snap.(version := req.expected + 1, updatedAt := now);
    match req
    case Update(_, _, fields, _, _, _) => item.(fields := Normalize(fields))
    case Transition(_, _, target, _, _, _, _) => item.(status := Trim(target))
  }

  function NewItem(req: Request, now: int): Row
    requires req.Create?
  {
    Row(ToUpper(Trim(req.code)), Normalize(req.fields), InitialStatus(req.agg), 1,
        if req.agg == PriorityDecision then req.actor else "", now, now, false)
  }

  function SnapshotOf(item: Row): Snapshot {
    FullSnapshot(item.code, item.fields, item.status, item.version, item.preparedBy)
  }

  function NewRevision(item: Row, reason: string, actor: string, requestId: string, role: Role): Revision {
    Revision(item.version, item.status, item.fields.evidence, Trim(reason), actor, requestId, SnapshotOf(item), role)
  }

  function Reason(req: Request): string {
    match req
    case Create(_, _, _, _, _, _) => "decision draft created"
    case Update(_, _, _, _, _, _) => "draft business fields updated"
    case Transition(_, _, _, reason, _, _, _) => Trim(reason)
    case Delete(_, _, _, _) => ""
  }

  function RevisionFor(req: Request, item: Row): Revision {
    NewRevision(item, Reason(req), req.actor, req.requestId, req.role)
  }

  /** Local checks of a creation, which reads nothing; its own item stands in for the snapshot. */
  function AfterValidation(req: Request, now: int): Pc
    requires req.Create?
  {
    if !ValidFields(req.agg, req.code, req.fields) then Done(Failed(InvalidInput))
    else var item := NewItem(req, now); Checked(item, item, RevisionFor(req, item))
  }

  /** Read and check: the snapshot decides whether the request may go on to write. */
  function AfterRead(req: Request, row: Option<Row>, now: int): Pc
    requires !req.Create?
  {
    if row.None? then Done(Failed(NotFound))
    else
      var snap := row.value;
      var problem := Check(req, snap);
      if problem.Some? then Done(Failed(problem.value))
      else if req.Delete? then CheckedDelete(snap)
      else var item := Edited(req, snap, now); Checked(snap, item, RevisionFor(req, item))
  }

  // ---------- the write transaction ----------

  datatype TxResult = Committed(db: Db, commit: Commit) | Aborted(error: Error)

  predicate CanWrite(db: Db, p: Proc, id: nat) {
    || (p.pc.Checked? && Guarded(p.req))
    || (p.pc.Checked? && p.req.Create? && Key(p.req.agg, id) !in db.rows)
    || (p.pc.CheckedDelete? && p.req.Delete?)
  }

  function TransactCreate(db: Db, rid: nat, req: Request, id: nat, item: Row, revision: Revision): TxResult
    requires req.Create?
  {
    var key := Key(req.agg, id);
    match InsertTx(db, key, item, revision)
    case DbErr(e) => Aborted(e)
    case DbOk(db') => Committed(db', Commit(rid, req, key, item, None, item))
  }

  function TransactGuarded(db: Db, rid: nat, req: Request, snap: Row, item: Row, revision: Revision): TxResult
    requires Guarded(req)
  {
    match UpdateTx(db, req.key, req.expected, item, revision)
    case DbErr(e) => Aborted(e)
    case DbOk(db') =>
      var prior := Fetch(db, req.key).value;
      Committed(db', Commit(rid, req, req.key, snap, Some(prior), Merge(prior, item)))
  }

  function TransactDelete(db: Db, rid: nat, req: Request, snap: Row): TxResult
    requires req.Delete?
  {
    match DeleteTx(db, req.key)
    case DbErr(e) => Aborted(e)
    case DbOk(db') =>
      var prior := Fetch(db, req.key).value;
      Committed(db', Commit(rid, req, req.key, snap, Some(prior), prior.(deleted := true)))
  }

  function Transact(db: Db, rid: nat, p: Proc, id: nat): TxResult
    requires CanWrite(db, p, id)
  {
    if p.req.Create? then TransactCreate(db, rid, p.req, id, p.pc.item, p.pc.revision)
    else if p.req.Delete? then TransactDelete(db, rid, p.req, p.pc.snap)
    else TransactGuarded(db, rid, p.req, p.pc.snap, p.pc.item, p.pc.revision)
  }

  // ---------- audit and reply ----------

  function OrElse(s: string, default: string): string { if s == "" then default else s }

  /** The audit entry a committed request appends; it speaks of the snapshot, not of the row found. */
  function AuditOf(c: Commit): Audit {
    var actor, requestId := OrElse(c.req.actor, "system"), OrElse(c.req.requestId, "untracked");
    match c.req
    case Create(_, _, _, _, _, _) =>
      Audit(c.rid, actor, requestId, "create", c.key, "", c.next.status, "created")
    case Update(_, _, _, _, _, _) =>
      Audit(c.rid, actor, requestId, "update", c.key, c.snap.status, c.snap.status, "updated business fields")
    case Transition(_, _, target, reason, _, _, _) =>
      Audit(c.rid, actor, requestId, "transition", c.key, c.snap.status, Trim(target), reason)
    case Delete(_, _, _, _) =>
      Audit(c.rid, actor, requestId, "delete", c.key, c.snap.status, "deleted", "soft deleted")
  }

  /** Creations and updates ignore an audit failure; transitions and deletions report it. */
  function AfterLog(c: Commit, fault: bool): Pc {
    match c.req
    case Create(agg, _, _, _, _, _) => if agg == PriorityDecision then Logged(c.key) else Done(Ok(c.next))
    case Update(_, _, _, _, _, _) => Logged(c.key)
    case Transition(_, _, _, _, _, _, _) => if fault then Done(Failed(AuditFault)) else Logged(c.key)
    case Delete(_, _, _, _) => if fault then Done(Failed(AuditFault)) else Done(Deleted)
  }

  function AfterReply(row: Option<Row>): Pc {
    if row.None? then Done(Failed(NotFound)) else Done(Ok(row.value))
  }

  // ---------- the transition system ----------

  predicate Enabled(st: State, step: Step) {
    match step
    case Invoke(_) => true
    case Read(rid, _, fault) =>
      rid < |st.procs| && st.procs[rid].pc.Invoked? && (st.procs[rid].req.Create? ==> !fault)
    case Write(rid, id, _) => rid < |st.procs| && CanWrite(st.db, st.procs[rid], id)
    case Log(rid, _) => rid < |st.procs| && st.procs[rid].pc.Written?
    case Reply(rid, _) => rid < |st.procs| && st.procs[rid].pc.Logged?
  }

  function Moved(st: State, rid: nat, pc: Pc): State
    requires rid < |st.procs|
  {
    st.(procs := st.procs[rid := st.procs[rid].(pc := pc)])
  }

  function ApplyWrite(st: State, rid: nat, id: nat): State
    requires rid < |st.procs| && CanWrite(st.db, st.procs[rid], id)
  {
    match Transact(st.db, rid, st.procs[rid], id)
    case Aborted(e) => Moved(st, rid, Done(Failed(e)))
    case Committed(db, c) => Moved(st.(db := db, history := st.history + [c]), rid, Written(c))
  }

  function ApplyLog(st: State, rid: nat, fault: bool): State
    requires rid < |st.procs| && st.procs[rid].pc.Written?
  {
    var c := st.procs[rid].pc.commit;
    Moved(if fault then st else st.(audits := st.audits + [AuditOf(c)]), rid, AfterLog(c, fault))
  }

  function Apply(st: State, step: Step): State
    requires Enabled(st, step)
  {
    match step
    case Invoke(req) => st.(procs := st.procs + [Proc(req, Invoked)])
    case Read(rid, now, fault) =>
      var req := st.procs[rid].req;
      Moved(st, rid,
            if req.Create? then AfterValidation(req, now)
            else if fault then Done(Failed(StorageFault))
            else AfterRead(req, Fetch(st.db, req.key), now))
    case Write(rid, id, fault) =>
      if fault then Moved(st, rid, Done(Failed(StorageFault))) else ApplyWrite(st, rid, id)
    case Log(rid, fault) => ApplyLog(st, rid, fault)
    case Reply(rid, fault) =>
      Moved(st, rid, if fault then Done(Failed(StorageFault)) else AfterReply(Fetch(st.db, st.procs[rid].pc.key)))
  }

  /** A run: the states passed through and the steps taken between them. */
  ghost predicate Behavior(ss: seq<State>, steps: seq<Step>) {
    && |ss| == |steps| + 1
    && forall i :: 0 <= i < |steps| ==> Enabled(ss[i], steps[i]) && ss[i + 1] == Apply(ss[i], steps[i])
  }
}
