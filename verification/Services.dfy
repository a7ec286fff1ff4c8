/** The repository and the services as programs that update their state in place.  Every
    service method is proved to take exactly the steps of `Protocol`, with any number of
    steps of other requests between its own. */
module Services {
  import opened Domain
  import opened Store
  import opened Protocol
  import opened Invariants

  /** A run written as the steps taken from its start. */
  datatype Trace = Start(state: State) | Then(before: Trace, step: Step)

  ghost predicate Legal(t: Trace)
    decreases t, 0
  {
    match t
    case Start(st) => Init(st)
    case Then(before, step) => Legal(before) && Enabled(Final(before), step)
  }

  ghost function Final(t: Trace): State
    requires Legal(t)
    decreases t, 1
  {
    match t
    case Start(st) => st
    case Then(before, step) => Apply(Final(before), step)
  }

  /** `t` is `origin` or goes on from it. */
  ghost predicate Continues(origin: Trace, t: Trace) {
    t == origin || (t.Then? && Continues(origin, t.before))
  }

  lemma {:induction false} ContinuesIsTransitive(origin: Trace, t: Trace, later: Trace)
    requires Continues(origin, t) && Continues(t, later)
    ensures Continues(origin, later)
  {
    if later != t {
      ContinuesIsTransitive(origin, t, later.before);
    }
  }

  ghost function StatesOf(t: Trace): seq<State>
    requires Legal(t)
  {
    match t
    case Start(st) => [st]
    case Then(before, _) => StatesOf(before) + [Final(t)]
  }

  ghost function StepsOf(t: Trace): seq<Step> {
    match t
    case Start(_) => []
    case Then(before, step) => StepsOf(before) + [step]
  }

  /** A legal trace is a run, so everything proved of runs holds of it. */
  lemma {:induction false} LegalTraceIsRun(t: Trace)
    requires Legal(t)
    ensures Run(StatesOf(t), StepsOf(t)) && StatesOf(t)[|StepsOf(t)|] == Final(t)
  {
    if t.Then? {
      LegalTraceIsRun(t.before);
    }
  }

  predicate IdsBelow(keys: set<Key>, bound: nat) {
    forall k :: k in keys ==> k.id < bound
  }

  lemma {:induction false} IdsAreBounded(keys: set<Key>)
    ensures exists bound: nat :: IdsBelow(keys, bound)
  {
    if keys == {} {
      assert IdsBelow(keys, 0);
    } else {
      var key :| key in keys;
      IdsAreBounded(keys - {key});
      var bound: nat :| IdsBelow(keys - {key}, bound);
      var larger: nat := if key.id < bound then bound else key.id + 1;
      forall k | k in keys ensures k.id < larger {
        assert k == key || k in keys - {key};
      }
      assert IdsBelow(keys, larger);
    }
  }

  lemma FreshKeyExists(keys: set<Key>, agg: Aggregate)
    ensures exists id: nat :: Key(agg, id) !in keys
  {
    IdsAreBounded(keys);
    var bound: nat :| IdsBelow(keys, bound);
    assert Key(agg, bound) !in keys;
  }

  /** The shared tables.  Every method is one transaction. */
  class Repository {
    var rows: map<Key, Row>
    var revisions: map<Key, seq<Revision>>
    var audits: seq<Audit>

    function Value(): Db
      reads this
    {
      Db(rows, revisions)
    }

    constructor (rows: map<Key, Row>, revisions: map<Key, seq<Revision>>)
      ensures Value() == Db(rows, revisions) && audits == []
    {
      this.rows, this.revisions, this.audits := rows, revisions, [];
    }

    method Get(key: Key) returns (row: Option<Row>, fault: bool)
      ensures !fault ==> row == Fetch(Value(), key)
    {
      fault := *;
      row := if key in rows && !rows[key].deleted then Some(rows[key]) else None;
    }

    /** What a finished transaction reports and leaves behind. */
    ghost predicate Reports(before: Db, error: Option<Error>, result: DbResult)
      reads this
    {
      match result
      case DbOk(db) => (error == None && Value() == db) || (error == Some(StorageFault) && Value() == before)
      case DbErr(e) => (error == Some(e) || error == Some(StorageFault)) && Value() == before
    }

    method Create(key: Key, item: Row, ghost revision: Revision) returns (error: Option<Error>)
      requires key.agg != PriorityDecision && key !in rows
      modifies this
      ensures audits == old(audits)
      ensures Reports(old(Value()), error, InsertTx(old(Value()), key, item, revision))
    {
      var fault: bool := *;
      if fault {
        return Some(StorageFault);
      }
      if CodeTaken(rows, key.agg, item.code) {
        return Some(DuplicateCode);
      }
      rows := rows[key := item];
      error := None;
    }

    method CreateWithRevision(key: Key, item: Row, revision: Revision) returns (error: Option<Error>)
      requires key.agg == PriorityDecision && key !in rows
      modifies this
      ensures audits == old(audits)
      ensures Reports(old(Value()), error, InsertTx(old(Value()), key, item, revision))
    {
      var fault: bool := *;
      if fault {
        return Some(StorageFault);
      }
      var rollback := rows;
      if CodeTaken(rows, key.agg, item.code) {
        return Some(DuplicateCode);
      }
      rows := rows[key := item];
      error := InsertRevision(key, revision);
      if error.Some? {
        rows := rollback;
      }
    }

    method Update(key: Key, expected: nat, item: Row, ghost revision: Revision) returns (error: Option<Error>)
      requires key.agg != PriorityDecision
      modifies this
      ensures audits == old(audits)
      ensures Reports(old(Value()), error, UpdateTx(old(Value()), key, expected, item, revision))
    {
      var fault: bool := *;
      if fault {
        return Some(StorageFault);
      }
      if key !in rows || rows[key].deleted || rows[key].version != expected {
        return Some(VersionConflict);
      }
      rows := rows[key := Merge(rows[key], item)];
      error := None;
    }

    method UpdateWithRevision(key: Key, expected: nat, item: Row, revision: Revision) returns (error: Option<Error>)
      requires key.agg == PriorityDecision
      modifies this
      ensures audits == old(audits)
      ensures Reports(old(Value()), error, UpdateTx(old(Value()), key, expected, item, revision))
    {
      var fault: bool := *;
      if fault {
        return Some(StorageFault);
      }
      var rollback := rows;
      if key !in rows || rows[key].deleted || rows[key].version != expected {
        return Some(VersionConflict);
      }
      rows := rows[key := Merge(rows[key], item)];
      error := InsertRevision(key, revision);
      if error.Some? {
        rows := rollback;
      }
    }

    /** Appends to a decision's chain unless the (decision, version) index already has the entry. */
    method InsertRevision(key: Key, revision: Revision) returns (error: Option<Error>)
      requires key.agg == PriorityDecision
      modifies this`revisions
      ensures match AppendRevision(old(Value()), key, revision)
              case DbOk(db) => error == None && Value() == db
              case DbErr(e) => error == Some(e) && Value() == old(Value())
    {
      var chain := if key in revisions then revisions[key] else [];
      var i := 0;
      while i < |chain|
        invariant 0 <= i <= |chain|
        invariant forall j :: 0 <= j < i ==> chain[j].version != revision.version
      {
        if chain[i].version == revision.version {
          return Some(RevisionExists);
        }
        i := i + 1;
      }
      revisions := revisions[key := chain + [revision]];
      error := None;
    }

    method Delete(key: Key) returns (error: Option<Error>)
      modifies this
      ensures audits == old(audits)
      ensures Reports(old(Value()), error, DeleteTx(old(Value()), key))
    {
      var fault: bool := *;
      if fault {
        return Some(StorageFault);
      }
      if key !in rows || rows[key].deleted {
        return Some(NotFound);
      }
      rows := rows[key := rows[key].(deleted := true)];
      error := None;
    }

    /** Appends an audit entry, with defaults for a missing actor or request number.  An entry
        without an action is refused; one without an entity type cannot be written down here. */
    method Append(rid: nat, actor: string, requestId: string, action: string, key: Key,
                  before: string, after: string, detail: string)
      returns (ok: bool)
      modifies this`audits
      ensures action == "" ==> !ok
      ensures audits == if ok then old(audits) + [Audit(rid, OrElse(actor, "system"), OrElse(requestId, "untracked"),
                                                        action, key, before, after, detail)]
                        else old(audits)
    {
      ok := *;
      if action == "" {
        ok := false;
      }
      if ok {
        var who, request := actor, requestId;
        if who == "" {
          who := "system";
        }
        if request == "" {
          request := "untracked";
        }
        audits := audits + [Audit(rid, who, request, action, key, before, after, detail)];
      }
    }
  }

  /** The checks and edits of a draft update, made on the loaded record. */
  method EditDraft(ghost req: Request, row: Row, expected: nat, input: Fields, actor: string, role: Role,
                   requestId: string, now: int)
    returns (problem: Option<Error>, current: Row, revision: Revision)
    requires req.Update? && req == Request.Update(req.key, expected, input, actor, role, requestId)
    requires req.key.agg == PriorityDecision
    ensures problem == Check(req, row)
    ensures problem.None? ==> current == Edited(req, row, now) && revision == RevisionFor(req, current)
  {
    problem, current := None, row;
    revision := NewRevision(current, "", actor, requestId, role);
    if current.status != DRAFT {
      problem := Some(DecisionLocked);
      return;
    }
    if actor != current.preparedBy && role != Admin {
      problem := Some(NotDecisionOwner);
      return;
    }
    if !ValidFields(PriorityDecision, current.code, input) {
      problem := Some(InvalidInput);
      return;
    }
    current := current.(fields := Normalize(input));
    current := current.(version := expected + 1);
    current := current.(updatedAt := now);
    revision := NewRevision(current, "draft business fields updated", actor, requestId, role);
  }

  /** The checks and edits of a decision's transition. */
  method MoveDecision(ghost req: Request, row: Row, expected: nat, target: string, reason: string, actor: string,
                      role: Role, requestId: string, now: int)
    returns (problem: Option<Error>, current: Row, revision: Revision)
    requires req.Transition? && req == Request.Transition(req.key, expected, target, reason, actor, role, requestId)
    requires req.key.agg == PriorityDecision
    ensures problem == Check(req, row)
    ensures problem.None? ==> current == Edited(req, row, now) && revision == RevisionFor(req, current)
  {
    problem, current := None, row;
    revision := NewRevision(current, "", actor, requestId, role);
    if role != Reviewer && role != Admin {
      problem := Some(ReviewRole);
      return;
    }
    if actor == current.preparedBy {
      problem := Some(SeparationOfDuty);
      return;
    }
    var wanted := Trim(target);
    if !CanTransition(PRIORITY_TRANSITIONS, current.status, wanted) {
      problem := Some(InvalidTransition);
      return;
    }
    current := current.(status := wanted);
    current := current.(version := expected + 1);
    current := current.(updatedAt := now);
    revision := NewRevision(current, Trim(reason), actor, requestId, role);
  }

  /** The checks and edits of an update of a bridge, inspection or defect. */
  method EditEntity(ghost req: Request, row: Row, agg: Aggregate, expected: nat, input: Fields, now: int)
    returns (problem: Option<Error>, current: Row)
    requires req.Update? && req.expected == expected && req.fields == input && req.key.agg == agg != PriorityDecision
    ensures problem == Check(req, row)
    ensures problem.None? ==> current == Edited(req, row, now)
  {
    problem, current := None, row;
    if !ValidFields(agg, current.code, input) {
      problem := Some(InvalidInput);
      return;
    }
    current := current.(fields := Normalize(input));
    current := current.(version := expected + 1);
    current := current.(updatedAt := now);
  }

  /** The checks and edits of a transition of a bridge, inspection or defect. */
  method MoveEntity(ghost req: Request, row: Row, agg: Aggregate, expected: nat, target: string, now: int)
    returns (problem: Option<Error>, current: Row)
    requires req.Transition? && req.expected == expected && req.target == target
    requires req.key.agg == agg != PriorityDecision
    ensures problem == Check(req, row)
    ensures problem.None? ==> current == Edited(req, row, now)
  {
    problem, current := None, row;
    var wanted := Trim(target);
    if !CanTransition(Transitions(agg), current.status, wanted) {
      problem := Some(InvalidTransition);
      return;
    }
    current := current.(status := wanted);
    current := current.(version := expected + 1);
    current := current.(updatedAt := now);
  }

  /** The services on top of one repository.  `trace` records the run so far and `last` its
      final state; every method leaves a trace that goes on from the one it found. */
  class Backend {
    const repo: Repository
    var requests: nat
    ghost var trace: Trace
    ghost var last: State

    /** The tables are those of the run's final state. */
    ghost predicate Valid()
      reads this, repo
    {
      Consistent() && last.db == repo.Value() && last.audits == repo.audits
    }

    ghost predicate Consistent()
      reads this
    {
      Legal(trace) && Final(trace) == last && |last.procs| == requests
    }

    constructor (repo: Repository)
      requires ChainInv(repo.Value()) && repo.audits == []
      ensures Valid() && this.repo == repo && trace == Start(State(repo.Value(), [], [], []))
    {
      this.repo := repo;
      requests := 0;
      last := State(repo.Value(), [], [], []);
      trace := Start(State(repo.Value(), [], [], []));
    }

    /** Notes a step whose effect on the tables has just taken place. */
    ghost method Record(step: Step)
      requires Legal(trace) && Final(trace) == last && Enabled(last, step)
      requires |Apply(last, step).procs| == requests
      modifies this`trace, this`last
      ensures Consistent() && last == Apply(old(last), step) && trace == Then(old(trace), step)
    {
      trace := Then(trace, step);
      last := Apply(last, step);
    }

    /** A point where other requests may run.  Callers know only this contract, which lets the
        run go on, from where it stands, by any steps of the others: the tables may change as
        those steps change them. */
    method Yield(ghost origin: Trace, rid: nat)
      requires Valid() && rid < requests && Continues(origin, trace)
      modifies this, repo
      ensures Valid() && rid < requests && Continues(old(trace), trace) && Continues(origin, trace)
      ensures last.procs[rid] == old(last.procs[rid])
    {
      ContinuesIsTransitive(origin, old(trace), trace);
    }

    /** Reads the clock. */
    method Clock() returns (now: int)
    {
      now := *;
    }

    /** In a run that goes on from `origin`, request `rid` is `req` and has reached `pc`. */
    ghost predicate At(origin: Trace, rid: nat, req: Request, pc: Pc)
      reads this, repo
    {
      Valid() && Continues(origin, trace) && rid < requests && last.procs[rid] == Proc(req, pc)
    }

    // ---------- the steps of a request ----------

    /** A request arrives. */
    method Arrive(ghost origin: Trace, ghost req: Request) returns (rid: nat)
      requires Valid() && Continues(origin, trace)
      modifies this, repo
      ensures At(origin, rid, req, Invoked)
    {
      rid := requests;
      requests := requests + 1;
      Record(Invoke(req));
      Yield(origin, rid);
    }

    /** The request reads its row; what it will do next is `AfterRead` of what it saw. */
    method Load(ghost origin: Trace, rid: nat, ghost req: Request, key: Key)
      returns (row: Option<Row>, fault: bool, now: int)
      requires At(origin, rid, req, Invoked) && !req.Create? && key == req.key
      modifies this, repo
      ensures At(origin, rid, req, if fault then Done(Failed(StorageFault)) else AfterRead(req, row, now))
    {
      row, fault := repo.Get(key);
      now := Clock();
      Record(Read(rid, now, fault));
      Yield(origin, rid);
    }

    /** Notes the outcome of the transaction of an update or a transition. */
    ghost method RecordGuarded(origin: Trace, rid: nat, req: Request, snap: Row, item: Row,
                               revision: Revision, error: Option<Error>)
      requires Consistent() && Continues(origin, trace) && last.audits == repo.audits
      requires rid < requests && last.procs[rid] == Proc(req, Checked(snap, item, revision)) && Guarded(req)
      requires repo.Reports(last.db, error, UpdateTx(last.db, req.key, req.expected, item, revision))
      modifies this`trace, this`last
      ensures if error.Some? then At(origin, rid, req, Done(Failed(error.value)))
              else WrittenAt(origin, rid, req, req.key, snap)
    {
      Record(Write(rid, 0, error == Some(StorageFault)));
    }

    ghost method RecordDelete(origin: Trace, rid: nat, req: Request, snap: Row, error: Option<Error>)
      requires Consistent() && Continues(origin, trace) && last.audits == repo.audits
      requires rid < requests && last.procs[rid] == Proc(req, CheckedDelete(snap)) && req.Delete?
      requires repo.Reports(last.db, error, DeleteTx(last.db, req.key))
      modifies this`trace, this`last
      ensures if error.Some? then At(origin, rid, req, Done(Failed(error.value)))
              else WrittenAt(origin, rid, req, req.key, snap)
    {
      Record(Write(rid, 0, error == Some(StorageFault)));
    }

    ghost method RecordCreate(origin: Trace, rid: nat, req: Request, id: nat, item: Row, revision: Revision,
                              error: Option<Error>)
      requires Consistent() && Continues(origin, trace) && last.audits == repo.audits
      requires rid < requests && last.procs[rid] == Proc(req, Checked(item, item, revision)) && req.Create?
      requires Key(req.agg, id) !in last.db.rows
      requires repo.Reports(last.db, error, InsertTx(last.db, Key(req.agg, id), item, revision))
      modifies this`trace, this`last
      ensures if error.Some? then At(origin, rid, req, Done(Failed(error.value)))
              else WrittenAt(origin, rid, req, Key(req.agg, id), item) && last.procs[rid].pc.commit.next == item
    {
      Record(Write(rid, id, error == Some(StorageFault)));
    }

    /** The request has committed on `key`, having read `snap`. */
    ghost predicate WrittenAt(origin: Trace, rid: nat, req: Request, key: Key, snap: Row)
      reads this, repo
    {
      && Valid() && Continues(origin, trace) && rid < requests
      && last.procs[rid].req == req && last.procs[rid].pc.Written?
      && var c := last.procs[rid].pc.commit;
         c.rid == rid && c.req == req && c.key == key && c.snap == snap
    }

    /** Runs the transaction of a decision's update or transition. */
    method SaveDecision(ghost origin: Trace, rid: nat, ghost req: Request, ghost snap: Row, key: Key,
                        expected: nat, item: Row, revision: Revision)
      returns (error: Option<Error>)
      requires At(origin, rid, req, Checked(snap, item, revision)) && Guarded(req)
      requires key == req.key && key.agg == PriorityDecision && expected == req.expected
      modifies this, repo
      ensures After(origin, rid, req, error, key, snap)
    {
      error := repo.UpdateWithRevision(key, expected, item, revision);
      RecordGuarded(origin, rid, req, snap, item, revision, error);
      Yield(origin, rid);
    }

    method SaveEntity(ghost origin: Trace, rid: nat, ghost req: Request, ghost snap: Row, key: Key,
                      expected: nat, item: Row)
      returns (error: Option<Error>)
      requires At(origin, rid, req, Checked(snap, item, RevisionFor(req, item))) && Guarded(req)
      requires key == req.key && key.agg != PriorityDecision && expected == req.expected
      modifies this, repo
      ensures After(origin, rid, req, error, key, snap)
    {
      error := repo.Update(key, expected, item, RevisionFor(req, item));
      RecordGuarded(origin, rid, req, snap, item, RevisionFor(req, item), error);
      Yield(origin, rid);
    }

    method InsertDecision(ghost origin: Trace, rid: nat, ghost req: Request, item: Row, revision: Revision)
      returns (key: Key, error: Option<Error>)
      requires At(origin, rid, req, Checked(item, item, revision)) && req.Create? && req.agg == PriorityDecision
      modifies this, repo
      ensures key.agg == req.agg && After(origin, rid, req, error, key, item)
      ensures error.None? ==> last.procs[rid].pc.commit.next == item
    {
      key := NextKey(PriorityDecision);
      error := repo.CreateWithRevision(key, item, revision);
      RecordCreate(origin, rid, req, key.id, item, revision, error);
      Yield(origin, rid);
    }

    method InsertEntity(ghost origin: Trace, rid: nat, ghost req: Request, agg: Aggregate, item: Row)
      returns (key: Key, error: Option<Error>)
      requires At(origin, rid, req, Checked(item, item, RevisionFor(req, item)))
      requires req.Create? && req.agg == agg != PriorityDecision
      modifies this, repo
      ensures key.agg == req.agg && After(origin, rid, req, error, key, item)
      ensures error.None? ==> last.procs[rid].pc.commit.next == item
    {
      key := NextKey(agg);
      error := repo.Create(key, item, RevisionFor(req, item));
      RecordCreate(origin, rid, req, key.id, item, RevisionFor(req, item), error);
      Yield(origin, rid);
    }

    method Remove(ghost origin: Trace, rid: nat, ghost req: Request, ghost snap: Row,
                  key: Key)
      returns (error: Option<Error>)
      requires At(origin, rid, req, CheckedDelete(snap)) && req.Delete? && key == req.key
      modifies this, repo
      ensures After(origin, rid, req, error, key, snap)
    {
      error := repo.Delete(key);
      RecordDelete(origin, rid, req, snap, error);
      Yield(origin, rid);
    }

    /** The transaction has failed for good, or its commit is in the table. */
    ghost predicate After(origin: Trace, rid: nat, req: Request, error: Option<Error>, key: Key, snap: Row)
      reads this, repo
    {
      if error.Some? then At(origin, rid, req, Done(Failed(error.value))) else WrittenAt(origin, rid, req, key, snap)
    }

    /** Appends the audit entry the request's commit calls for. */
    method Audit(ghost origin: Trace, rid: nat, ghost req: Request, ghost c: Commit, actor: string, requestId: string,
                 action: string, key: Key, before: string, after: string, detail: string)
      returns (ok: bool)
      requires At(origin, rid, req, Written(c))
      requires AuditOf(c) == Protocol.Audit(rid, OrElse(actor, "system"), OrElse(requestId, "untracked"),
                                            action, key, before, after, detail)
      modifies this, repo
      ensures At(origin, rid, req, AfterLog(c, !ok))
    {
      ok := repo.Append(rid, actor, requestId, action, key, before, after, detail);
      Record(Log(rid, !ok));
      Yield(origin, rid);
    }

    /** Reads the row again to answer the request. */
    method Answer(ghost origin: Trace, rid: nat, ghost req: Request, key: Key) returns (out: Outcome)
      requires At(origin, rid, req, Logged(key))
      modifies this, repo
      ensures At(origin, rid, req, Done(out))
    {
      var row, fault := repo.Get(key);
      Record(Reply(rid, fault));
      out := if fault then Failed(StorageFault) else if row.None? then Failed(NotFound) else Ok(row.value);
      Yield(origin, rid);
    }

    /** The key the database hands out for a new row. */
    method NextKey(agg: Aggregate) returns (key: Key)
      ensures key.agg == agg && key !in repo.rows
    {
      FreshKeyExists(repo.rows.Keys, agg);
      var id: nat :| Key(agg, id) !in repo.rows;
      key := Key(agg, id);
    }

    // ---------- priority decisions ----------

    method CreateDecision(code: string, input: Fields, actor: string, role: Role, requestId: string)
      returns (out: Outcome, rid: nat)
      requires Valid()
      modifies this, repo
      ensures At(old(trace), rid, Request.Create(PriorityDecision, code, input, actor, role, requestId), Done(out))
    {
      ghost var origin := trace;
      ghost var req := Request.Create(PriorityDecision, code, input, actor, role, requestId);
      rid := Arrive(origin, req);
      var now := Clock();
      Record(Read(rid, now, false));
      if !ValidFields(PriorityDecision, code, input) {
        return Failed(InvalidInput), rid;
      }
      var item := Row(ToUpper(Trim(code)), Normalize(input), DRAFT, 1, actor, now, now, false);
      var revision := NewRevision(item, "decision draft created", actor, requestId, role);
      var key, error := InsertDecision(origin, rid, req, item, revision);
      if error.Some? {
        return Failed(error.value), rid;
      }
      ghost var c := last.procs[rid].pc.commit;
      var _ := Audit(origin, rid, req, c, actor, requestId, "create", key, "", item.status, "created");
      out := Answer(origin, rid, req, key);
    }

    method UpdateDecision(key: Key, expected: nat, input: Fields, actor: string, role: Role, requestId: string)
      returns (out: Outcome, rid: nat)
      requires Valid() && key.agg == PriorityDecision
      modifies this, repo
      ensures At(old(trace), rid, Request.Update(key, expected, input, actor, role, requestId), Done(out))
    {
      ghost var origin := trace;
      ghost var req := Request.Update(key, expected, input, actor, role, requestId);
      rid := Arrive(origin, req);
      var row, fault, now := Load(origin, rid, req, key);
      if fault {
        return Failed(StorageFault), rid;
      }
      if row.None? {
        return Failed(NotFound), rid;
      }
      var problem, current, revision := EditDraft(req, row.value, expected, input, actor, role, requestId, now);
      if problem.Some? {
        return Failed(problem.value), rid;
      }
      var error := SaveDecision(origin, rid, req, row.value, key, expected, current, revision);
      if error.Some? {
        return Failed(error.value), rid;
      }
      ghost var c := last.procs[rid].pc.commit;
      var _ := Audit(origin, rid, req, c, actor, requestId, "update", key, current.status,
                     current.status, "updated business fields");
      out := Answer(origin, rid, req, key);
    }

    method TransitionDecision(key: Key, expected: nat, target: string, reason: string, actor: string,
                              role: Role, requestId: string)
      returns (out: Outcome, rid: nat)
      requires Valid() && key.agg == PriorityDecision
      modifies this, repo
      ensures At(old(trace), rid, Request.Transition(key, expected, target, reason, actor, role, requestId), Done(out))
    {
      ghost var origin := trace;
      ghost var req := Request.Transition(key, expected, target, reason, actor, role, requestId);
      rid := Arrive(origin, req);
      var row, fault, now := Load(origin, rid, req, key);
      if fault {
        return Failed(StorageFault), rid;
      }
      if row.None? {
        return Failed(NotFound), rid;
      }
      var problem, current, revision := MoveDecision(req, row.value, expected, target, reason,
                                                     actor, role, requestId, now);
      if problem.Some? {
        return Failed(problem.value), rid;
      }
      var error := SaveDecision(origin, rid, req, row.value, key, expected, current, revision);
      if error.Some? {
        return Failed(error.value), rid;
      }
      ghost var c := last.procs[rid].pc.commit;
      var ok := Audit(origin, rid, req, c, actor, requestId, "transition", key, row.value.status,
                      current.status, reason);
      if !ok {
        return Failed(AuditFault), rid;
      }
      out := Answer(origin, rid, req, key);
    }

    method DeleteDecision(key: Key, actor: string, role: Role, requestId: string)
      returns (out: Outcome, rid: nat)
      requires Valid() && key.agg == PriorityDecision
      modifies this, repo
      ensures At(old(trace), rid, Request.Delete(key, actor, role, requestId), Done(out))
    {
      ghost var origin := trace;
      ghost var req := Request.Delete(key, actor, role, requestId);
      rid := Arrive(origin, req);
      var row, fault, now := Load(origin, rid, req, key);
      if fault {
        return Failed(StorageFault), rid;
      }
      if row.None? {
        return Failed(NotFound), rid;
      }
      if row.value.status != DRAFT {
        return Failed(DecisionLocked), rid;
      }
      var error := Remove(origin, rid, req, row.value, key);
      if error.Some? {
        return Failed(error.value), rid;
      }
      ghost var c := last.procs[rid].pc.commit;
      var ok := Audit(origin, rid, req, c, actor, requestId, "delete", key, row.value.status,
                      "deleted", "soft deleted");
      out := if ok then Deleted else Failed(AuditFault);
    }

    // ---------- bridges, inspections and defects ----------

    method CreateEntity(agg: Aggregate, code: string, input: Fields, actor: string, role: Role, requestId: string)
      returns (out: Outcome, rid: nat)
      requires Valid() && agg != PriorityDecision
      modifies this, repo
      ensures At(old(trace), rid, Request.Create(agg, code, input, actor, role, requestId), Done(out))
    {
      ghost var origin := trace;
      ghost var req := Request.Create(agg, code, input, actor, role, requestId);
      rid := Arrive(origin, req);
      var now := Clock();
      Record(Read(rid, now, false));
      if !ValidFields(agg, code, input) {
        return Failed(InvalidInput), rid;
      }
      var item := Row(ToUpper(Trim(code)), Normalize(input), InitialStatus(agg), 1, "", now, now, false);
      var key, error := InsertEntity(origin, rid, req, agg, item);
      if error.Some? {
        return Failed(error.value), rid;
      }
      ghost var c := last.procs[rid].pc.commit;
      var _ := Audit(origin, rid, req, c, actor, requestId, "create", key, "", item.status, "created");
      out := Ok(item);
    }

    method UpdateEntity(key: Key, expected: nat, input: Fields, actor: string, role: Role, requestId: string)
      returns (out: Outcome, rid: nat)
      requires Valid() && key.agg != PriorityDecision
      modifies this, repo
      ensures At(old(trace), rid, Request.Update(key, expected, input, actor, role, requestId), Done(out))
    {
      ghost var origin := trace;
      ghost var req := Request.Update(key, expected, input, actor, role, requestId);
      rid := Arrive(origin, req);
      var row, fault, now := Load(origin, rid, req, key);
      if fault {
        return Failed(StorageFault), rid;
      }
      if row.None? {
        return Failed(NotFound), rid;
      }
      var problem, current := EditEntity(req, row.value, key.agg, expected, input, now);
      if problem.Some? {
        return Failed(problem.value), rid;
      }
      var error := SaveEntity(origin, rid, req, row.value, key, expected, current);
      if error.Some? {
        return Failed(error.value), rid;
      }
      ghost var c := last.procs[rid].pc.commit;
      var _ := Audit(origin, rid, req, c, actor, requestId, "update", key, current.status,
                     current.status, "updated business fields");
      out := Answer(origin, rid, req, key);
    }

    method TransitionEntity(key: Key, expected: nat, target: string, reason: string, actor: string,
                            role: Role, requestId: string)
      returns (out: Outcome, rid: nat)
      requires Valid() && key.agg != PriorityDecision
      modifies this, repo
      ensures At(old(trace), rid, Request.Transition(key, expected, target, reason, actor, role, requestId), Done(out))
    {
      ghost var origin := trace;
      ghost var req := Request.Transition(key, expected, target, reason, actor, role, requestId);
      rid := Arrive(origin, req);
      var row, fault, now := Load(origin, rid, req, key);
      if fault {
        return Failed(StorageFault), rid;
      }
      if row.None? {
        return Failed(NotFound), rid;
      }
      var problem, current := MoveEntity(req, row.value, key.agg, expected, target, now);
      if problem.Some? {
        return Failed(problem.value), rid;
      }
      var error := SaveEntity(origin, rid, req, row.value, key, expected, current);
      if error.Some? {
        return Failed(error.value), rid;
      }
      ghost var c := last.procs[rid].pc.commit;
      var ok := Audit(origin, rid, req, c, actor, requestId, "transition", key, row.value.status,
                      current.status, reason);
      if !ok {
        return Failed(AuditFault), rid;
      }
      out := Answer(origin, rid, req, key);
    }

    method DeleteEntity(key: Key, actor: string, role: Role, requestId: string)
      returns (out: Outcome, rid: nat)
      requires Valid() && key.agg != PriorityDecision
      modifies this, repo
      ensures At(old(trace), rid, Request.Delete(key, actor, role, requestId), Done(out))
    {
      ghost var origin := trace;
      ghost var req := Request.Delete(key, actor, role, requestId);
      rid := Arrive(origin, req);
      var row, fault, now := Load(origin, rid, req, key);
      if fault {
        return Failed(StorageFault), rid;
      }
      if row.None? {
        return Failed(NotFound), rid;
      }
      var error := Remove(origin, rid, req, row.value, key);
      if error.Some? {
        return Failed(error.value), rid;
      }
      ghost var c := last.procs[rid].pc.commit;
      var ok := Audit(origin, rid, req, c, actor, requestId, "delete", key, row.value.status,
                      "deleted", "soft deleted");
      out := if ok then Deleted else Failed(AuditFault);
    }
  }

  /** The chains of a serving backend agree with its rows, whatever requests it has served. */
  lemma ServedChainsAgree(backend: Backend, key: Key)
    requires backend.Valid() && key in backend.repo.rows && key.agg == PriorityDecision
    ensures ChainOk(backend.repo.rows[key], RevisionsOf(backend.repo.Value(), key))
  {
    LegalTraceIsRun(backend.trace);
    Always(StatesOf(backend.trace), StepsOf(backend.trace), |StepsOf(backend.trace)|);
  }
}
