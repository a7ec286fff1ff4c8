/** What holds of a row when no client runs ahead on it: no update or transition that goes on to
    write the row expects a version above the one the server read.  Clients that send versions
    they have seen never do.  What happens to other rows does not matter.  Of all runs it says
    exactly which are serializable in commit order. */
module Discipline {
  import opened Domain
  import opened Store
  import opened Protocol
  import opened History
  import opened Invariants
  import opened Accounts
  import opened Ownership

  // ---------- the hypothesis ----------

  /** An update or transition reads its live row and passes its checks. */
  predicate GuardedRead(st: State, step: Step) {
    && Enabled(st, step) && step.Read? && !step.fault && Guarded(st.procs[step.rid].req)
    && var req := st.procs[step.rid].req;
       Fetch(st.db, req.key).Some? && Check(req, st.db.rows[req.key]) == None
  }

  /** A version expected of row `k` is not ahead of the one read. */
  predicate NotAhead(st: State, step: Step, k: Key) {
    GuardedRead(st, step) && st.procs[step.rid].req.key == k ==>
      st.procs[step.rid].req.expected <= st.db.rows[k].version
  }

  /** A run in which no request writes row `k` on a version ahead of the one it read. */
  ghost predicate HonestOn(ss: seq<State>, steps: seq<Step>, k: Key) {
    Run(ss, steps) && forall i :: 0 <= i < |steps| ==> NotAhead(ss[i], steps[i], k)
  }

  /** A run that is honest on every row. */
  ghost predicate HonestRun(ss: seq<State>, steps: seq<Step>) {
    Run(ss, steps) && forall k :: HonestOn(ss, steps, k)
  }

  /** `version` was stored in the row at moment `i` or before. */
  ghost predicate StoredBy(ss: seq<State>, i: nat, key: Key, version: nat) {
    exists j :: 0 <= j <= i && StoredAt(ss, j, key, version)
  }

  predicate StoredAt(ss: seq<State>, j: nat, key: Key, version: nat) {
    j < |ss| && key in ss[j].db.rows && ss[j].db.rows[key].version == version
  }

  /** Every client of row `k` sends a version that was stored in it no later than the server's read. */
  ghost predicate SeenVersions(ss: seq<State>, steps: seq<Step>, k: Key)
    requires |ss| == |steps| + 1
  {
    forall i :: 0 <= i < |steps| && GuardedRead(ss[i], steps[i]) && ss[i].procs[steps[i].rid].req.key == k ==>
      StoredBy(ss, i, k, ss[i].procs[steps[i].rid].req.expected)
  }

  /** If all clients of a row send versions they have seen, the run is honest on it. */
  lemma SeenVersionsAreHonest(ss: seq<State>, steps: seq<Step>, k: Key)
    requires Run(ss, steps) && SeenVersions(ss, steps, k)
    ensures HonestOn(ss, steps, k)
  {
    forall i | 0 <= i < |steps| ensures NotAhead(ss[i], steps[i], k) {
      SeenIsNotAhead(ss, steps, i, k);
    }
  }

  lemma SeenIsNotAhead(ss: seq<State>, steps: seq<Step>, i: nat, k: Key)
    requires Run(ss, steps) && SeenVersions(ss, steps, k) && i < |steps|
    ensures NotAhead(ss[i], steps[i], k)
  {
    if GuardedRead(ss[i], steps[i]) && ss[i].procs[steps[i].rid].req.key == k {
      var expected := ss[i].procs[steps[i].rid].req.expected;
      assert StoredBy(ss, i, k, expected);
      var j :| 0 <= j <= i && StoredAt(ss, j, k, expected);
      Ages(ss, steps, j, i);
    }
  }

  // ---------- snapshots are current when they are written ----------

  /** The commits on row `k` are fresh, and no checked request on it is ahead of its snapshot. */
  ghost predicate FreshInv(st: State, k: Key) {
    FreshOn(st.history, k) && ReadersBehind(st.procs, k)
  }

  predicate ReadersBehind(procs: seq<Proc>, k: Key) {
    forall r :: 0 <= r < |procs| && procs[r].pc.Checked? && Guarded(procs[r].req) && procs[r].req.key == k ==>
      procs[r].req.expected <= procs[r].pc.snap.version
  }

  lemma FreshStep(rows0: map<Key, Row>, st: State, step: Step, k: Key)
    requires Inv(rows0, st) && FreshInv(st, k) && Enabled(st, step) && NotAhead(st, step, k)
    ensures FreshInv(Apply(st, step), k)
  {
    if Commits(st, step) {
      CommitShape(st, step);
      CommitIsFresh(rows0, st, step, k);
    } else if step.Log? && !step.fault {
      AuditShape(st, step);
    } else {
      QuietShape(st, step);
      StaysBehind(st, step, k);
    }
  }

  /** A commit is legal, and fresh if it is on row `k`. */
  lemma CommitIsFresh(rows0: map<Key, Row>, st: State, step: Step, k: Key)
    requires Inv(rows0, st) && FreshInv(st, k) && Enabled(st, step) && Commits(st, step)
    ensures Explains(st.db, CommitOf(st, step), Apply(st, step).db)
    ensures CommitOf(st, step).key == k ==> Fresh(CommitOf(st, step))
  {
    var p, c := st.procs[step.rid], CommitOf(st, step);
    assert ProcOk(st.db.rows, p);
    TransactIsLegal(st.db, step.rid, p, step.id);
    if Guarded(p.req) {
      FreshIffNotAhead(st.db.rows, c);
    }
  }

  lemma StaysBehind(st: State, step: Step, k: Key)
    requires ReadersBehind(st.procs, k) && Enabled(st, step) && NotAhead(st, step, k) && !Commits(st, step)
    ensures ReadersBehind(Apply(st, step).procs, k)
  {
  }

  lemma {:induction false} FreshAlways(ss: seq<State>, steps: seq<Step>, i: nat, k: Key)
    requires HonestOn(ss, steps, k) && i < |ss|
    ensures FreshInv(ss[i], k)
  {
    hide Apply, Enabled, Inv, NotAhead;
    if i > 0 {
      FreshAlways(ss, steps, i - 1, k);
      Always(ss, steps, i - 1);
      FreshStep(ss[0].db.rows, ss[i - 1], steps[i - 1], k);
    }
  }

  // ---------- the atomic specification ----------

  /** The request executed in one go: read, check and write against the same tables. */
  function AtomicOp(db: Db, req: Request, id: nat, now: int): DbResult {
    if req.Create? then
      if !ValidFields(req.agg, req.code, req.fields) then DbErr(InvalidInput)
      else var item := NewItem(req, now); InsertTx(db, Key(req.agg, id), item, RevisionFor(req, item))
    else
      var row := Fetch(db, req.key);
      if row.None? then DbErr(NotFound)
      else if Check(req, row.value).Some? then DbErr(Check(req, row.value).value)
      else if req.Delete? then DeleteTx(db, req.key)
      else var item := Edited(req, row.value, now); UpdateTx(db, req.key, req.expected, item, RevisionFor(req, item))
  }

  /** A deletion of a decision finds a draft, as it did when it checked. */
  predicate StillDraft(st: State, step: Step) {
    Enabled(st, step) && step.Write? && st.procs[step.rid].pc.CheckedDelete?
    && st.procs[step.rid].req.key.agg == PriorityDecision
    && Fetch(st.db, st.procs[step.rid].req.key).Some?
    ==> Fetch(st.db, st.procs[step.rid].req.key).value.status == DRAFT
  }

  /** The clock reading a request stamped its item with. */
  function Stamp(p: Proc): int { if p.pc.Checked? then p.pc.item.updatedAt else 0 }

  /** A request together with the primary key and clock reading it was given. */
  datatype Op = Op(req: Request, id: nat, now: int)

  /** The request a step commits, if it commits one. */
  function OpsOf(st: State, step: Step): seq<Op>
    requires Enabled(st, step)
  {
    if Commits(st, step) then [Op(st.procs[step.rid].req, step.id, Stamp(st.procs[step.rid]))] else []
  }

  /** The step does to the tables what executing its committed request in one go does, and
      nothing if it commits none. */
  ghost predicate AtomicEffect(st: State, step: Step, st': State)
    requires Enabled(st, step)
  {
    if Commits(st, step) then
      && CommitOf(st, step).req == st.procs[step.rid].req
      && st'.history == st.history + [CommitOf(st, step)]
      && AtomicOp(st.db, st.procs[step.rid].req, step.id, Stamp(st.procs[step.rid])) == DbOk(st'.db)
    else st'.db == st.db && st'.history == st.history
  }

  lemma OtherWriteIsAtomic(st: State, step: Step)
    requires Enabled(st, step) && Commits(st, step) && !Guarded(st.procs[step.rid].req)
    requires ProcOk(st.db.rows, st.procs[step.rid]) && StillDraft(st, step)
    ensures AtomicOp(st.db, st.procs[step.rid].req, step.id, Stamp(st.procs[step.rid])) == DbOk(Apply(st, step).db)
  {
  }

  /** What a request keeps of the row it read, it finds again; and a transition still is an edge. */
  predicate Unmoved(req: Request, snap: Row, row: Row)
    requires Guarded(req)
  {
    match req
    case Update(_, _, _, _, _, _) => row.status == snap.status
    case Transition(key, _, target, _, _, _, _) =>
      row.fields == snap.fields && CanTransition(Transitions(key.agg), row.status, Trim(target))
  }

  /** If the step commits, its row has not changed, since it was checked, in what the request
      relies on. */
  predicate Undisturbed(st: State, step: Step)
    requires Enabled(st, step)
  {
    Commits(st, step) ==>
      var p := st.procs[step.rid];
      && (Guarded(p.req) ==> p.req.key in st.db.rows && Unmoved(p.req, p.pc.snap, st.db.rows[p.req.key]))
      && StillDraft(st, step)
  }

  /** In any run, whatever versions clients send, a step has on the tables the effect of executing
      the request it commits in one go, and none if it commits none, exactly if it is undisturbed. */
  lemma StepIsAtomicIffUndisturbed(ss: seq<State>, steps: seq<Step>, i: nat)
    requires Run(ss, steps) && i < |steps|
    ensures AtomicEffect(ss[i], steps[i], ss[i + 1]) <==> Undisturbed(ss[i], steps[i])
  {
    var st, step := ss[i], steps[i];
    Always(ss, steps, i);
    if Commits(st, step) {
      assert ProcOk(st.db.rows, st.procs[step.rid]);
      CommitShape(st, step);
      if Guarded(st.procs[step.rid].req) {
        GuardedIsAtomicIffUnmoved(st, step);
      } else if StillDraft(st, step) {
        OtherWriteIsAtomic(st, step);
      }
    } else if step.Log? && !step.fault {
      AuditShape(st, step);
    } else {
      QuietShape(st, step);
    }
  }

  lemma GuardedIsAtomicIffUnmoved(st: State, step: Step)
    requires Enabled(st, step) && Commits(st, step) && Guarded(st.procs[step.rid].req)
    requires ProcOk(st.db.rows, st.procs[step.rid])
    ensures var p := st.procs[step.rid];
            p.req.key in st.db.rows
            && (AtomicOp(st.db, p.req, step.id, Stamp(p)) == DbOk(Apply(st, step).db)
                <==> Unmoved(p.req, p.pc.snap, st.db.rows[p.req.key]))
  {
    hide Apply, Transact, Check, Edited, RevisionFor, CanTransition, ChainOk;
    var p, db := st.procs[step.rid], st.db;
    var row := db.rows[p.req.key];
    GuardedWrites(st, step);
    EditsAgree(p.req, p.pc.snap, row, Stamp(p));
    var item := Edited(p.req, row, Stamp(p));
    assert forall r, db' :: UpdateTx(db, p.req.key, p.req.expected, item, r) == DbOk(db') ==>
                              db'.rows[p.req.key] == Merge(row, item);
    assert Apply(st, step).db.rows[p.req.key] == Merge(row, p.pc.item);
  }

  /** What a guarded commit did to the tables. */
  lemma GuardedWrites(st: State, step: Step)
    requires Enabled(st, step) && Commits(st, step) && Guarded(st.procs[step.rid].req)
    requires ProcOk(st.db.rows, st.procs[step.rid])
    ensures var p := st.procs[step.rid];
            && Stamp(p) == p.pc.item.updatedAt && Fetch(st.db, p.req.key).Some?
            && Check(p.req, p.pc.snap) == None && Older(p.pc.snap, st.db.rows[p.req.key])
            && p.pc.item == Edited(p.req, p.pc.snap, Stamp(p)) && p.pc.revision == RevisionFor(p.req, p.pc.item)
            && UpdateTx(st.db, p.req.key, p.req.expected, p.pc.item, p.pc.revision) == DbOk(Apply(st, step).db)
  {
  }

  /** The edit of an old snapshot is the edit of the row exactly if the row has not moved. */
  lemma EditsAgree(req: Request, snap: Row, row: Row, now: int)
    requires Guarded(req) && Check(req, snap) == None && Older(snap, row)
    ensures var written, current := Edited(req, snap, now), Edited(req, row, now);
            Unmoved(req, snap, row) <==> Check(req, row) == None && Merge(row, written) == Merge(row, current)
    ensures Unmoved(req, snap, row) ==>
              RevisionFor(req, Edited(req, snap, now)) == RevisionFor(req, Edited(req, row, now))
  {
    DecisionEdges(snap.status, Edited(req, snap, now).status);
  }

  /** In an honest run every step but a decision's deletion is undisturbed, and so has the effect
      of executing its own request in one go at that moment. */
  lemma StepRefinesAtomic(ss: seq<State>, steps: seq<Step>, i: nat)
    requires HonestRun(ss, steps) && i < |steps| && StillDraft(ss[i], steps[i])
    ensures AtomicEffect(ss[i], steps[i], ss[i + 1])
  {
    var st, step := ss[i], steps[i];
    Always(ss, steps, i);
    if Commits(st, step) {
      var k := CommitOf(st, step).key;
      assert HonestOn(ss, steps, k);
      FreshAlways(ss, steps, i, k);
      CommitIsFresh(ss[0].db.rows, st, step, k);
      assert ProcOk(st.db.rows, st.procs[step.rid]);
    }
    StepIsAtomicIffUndisturbed(ss, steps, i);
  }

  /** Executed in one go, no update or transition of a final decision is accepted. */
  lemma FinalRefusesWrites(db: Db, req: Request, id: nat, now: int)
    requires Guarded(req) && req.key.agg == PriorityDecision
    requires Fetch(db, req.key).Some? && IsFinal(db.rows[req.key].status)
    ensures AtomicOp(db, req, id, now).DbErr?
  {
    DecisionEdges(DRAFT, db.rows[req.key].status);
    if req.Transition? {
      DecisionEdges(db.rows[req.key].status, Trim(req.target));
    }
  }

  /** Request `p`, which fails and moves to `pc`, would be refused by the specification at that
      moment, and for the same reason - except that an update or transition whose row has changed
      since it was read reports a version conflict where the specification may name another reason. */
  ghost predicate RefusedAlike(db: Db, p: Proc, pc: Pc, id: nat, now: int)
    requires pc.Done?
  {
    var op := AtomicOp(db, p.req, id, now);
    && pc.outcome.Failed? && op.DbErr?
    && (op.error == pc.outcome.error
        || (&& Guarded(p.req) && p.pc.Checked? && pc.outcome.error == VersionConflict
            && Fetch(db, p.req.key) != Some(p.pc.snap)))
  }

  /** A request refused by its checks or its transaction is refused by the specification. */
  lemma RefusalsRefineAtomic(ss: seq<State>, steps: seq<Step>, i: nat, id: nat, now: int)
    requires Run(ss, steps) && i < |steps| && !steps[i].Invoke? && !steps[i].fault
    requires steps[i].Read? || (steps[i].Write? && id == steps[i].id)
    requires ss[i + 1].procs[steps[i].rid].pc.Done?
    ensures var r := steps[i].rid; RefusedAlike(ss[i].db, ss[i].procs[r], ss[i + 1].procs[r].pc, id, now)
  {
    var st, step := ss[i], steps[i];
    Always(ss, steps, i);
    assert ProcOk(st.db.rows, st.procs[step.rid]);
    if step.Write? {
      hide ProcOk, AtomicOp, Transact;
      if Guarded(st.procs[step.rid].req) {
        GuardedRefusal(st, step, now);
      } else {
        OtherRefusal(st, step, now);
      }
    }
  }

  lemma GuardedRefusal(st: State, step: Step, now: int)
    requires Enabled(st, step) && step.Write? && !step.fault && Guarded(st.procs[step.rid].req)
    requires ProcOk(st.db.rows, st.procs[step.rid]) && ChainInv(st.db)
    requires Apply(st, step).procs[step.rid].pc.Done?
    ensures RefusedAlike(st.db, st.procs[step.rid], Apply(st, step).procs[step.rid].pc, step.id, now)
  {
    hide ChainOk, InsertTx, DeleteTx, NewItem, ValidFields, Check;
    var p := st.procs[step.rid];
    IndexNeverRejects(st.db, p.req.key, p.req.expected, p.pc.item, p.pc.revision);
    var item := Edited(p.req, p.pc.snap, now);
    IndexNeverRejects(st.db, p.req.key, p.req.expected, item, RevisionFor(p.req, item));
  }

  lemma OtherRefusal(st: State, step: Step, now: int)
    requires Enabled(st, step) && step.Write? && !step.fault && !Guarded(st.procs[step.rid].req)
    requires ProcOk(st.db.rows, st.procs[step.rid]) && ChainInv(st.db)
    requires Apply(st, step).procs[step.rid].pc.Done?
    ensures RefusedAlike(st.db, st.procs[step.rid], Apply(st, step).procs[step.rid].pc, step.id, now)
  {
    hide ChainOk, Edited, UpdateTx, Merge, Check;
  }

  /** The tables after executing requests one at a time, or the first refusal. */
  function Serial(db: Db, ops: seq<Op>): DbResult {
    if ops == [] then DbOk(db)
    else
      var op := ops[|ops| - 1];
      match Serial(db, ops[..|ops| - 1])
      case DbErr(e) => DbErr(e)
      case DbOk(before) => AtomicOp(before, op.req, op.id, op.now)
  }

  /** The requests that commit in the first `i` steps, in commit order. */
  function OpsUpTo(ss: seq<State>, steps: seq<Step>, i: nat): seq<Op>
    requires |ss| == |steps| + 1 && i < |ss|
    requires forall m :: 0 <= m < i ==> Enabled(ss[m], steps[m])
  {
    if i == 0 then [] else OpsUpTo(ss, steps, i - 1) + OpsOf(ss[i - 1], steps[i - 1])
  }

  function Requests(ops: seq<Op>): seq<Request> {
    seq(|ops|, j requires 0 <= j < |ops| => ops[j].req)
  }

  function CommittedRequests(history: seq<Commit>): seq<Request> {
    seq(|history|, j requires 0 <= j < |history| => history[j].req)
  }

  lemma RequestsAppend(ops: seq<Op>, op: Op)
    ensures Requests(ops + [op]) == Requests(ops) + [op.req]
  {
  }

  lemma CommittedAppend(history: seq<Commit>, c: Commit)
    ensures CommittedRequests(history + [c]) == CommittedRequests(history) + [c.req]
  {
  }

  lemma SerialExtends(db: Db, ops: seq<Op>, st: State, step: Step, st': State)
    requires Enabled(st, step) && AtomicEffect(st, step, st')
    requires Serial(db, ops) == DbOk(st.db) && Requests(ops) == CommittedRequests(st.history)
    ensures var ops' := ops + OpsOf(st, step);
            Serial(db, ops') == DbOk(st'.db) && Requests(ops') == CommittedRequests(st'.history)
  {
    var ops' := ops + OpsOf(st, step);
    if Commits(st, step) {
      assert ops'[..|ops|] == ops;
      RequestsAppend(ops, ops'[|ops|]);
      CommittedAppend(st.history, CommitOf(st, step));
    } else {
      assert ops' == ops;
    }
  }

  /** In an honest run in which decision deletions find a draft the tables are those of executing the
      committed requests one at a time, each read-check-write indivisible, in commit order. */
  lemma {:induction false} RunsAreSerializable(ss: seq<State>, steps: seq<Step>, i: nat)
    requires HonestRun(ss, steps) && i < |ss|
    requires forall m :: 0 <= m < i ==> StillDraft(ss[m], steps[m])
    ensures Serial(ss[0].db, OpsUpTo(ss, steps, i)) == DbOk(ss[i].db)
    ensures Requests(OpsUpTo(ss, steps, i)) == CommittedRequests(ss[i].history)
  {
    if i > 0 {
      RunsAreSerializable(ss, steps, i - 1);
      StepRefinesAtomic(ss, steps, i - 1);
      SerialExtends(ss[0].db, OpsUpTo(ss, steps, i - 1), ss[i - 1], steps[i - 1], ss[i]);
    }
  }

  /** The tables at moment `i` are those of executing the requests committed so far one at a time. */
  ghost predicate SerialAt(ss: seq<State>, steps: seq<Step>, i: nat)
    requires Behavior(ss, steps) && i < |ss|
  {
    Serial(ss[0].db, OpsUpTo(ss, steps, i)) == DbOk(ss[i].db)
  }

  /** Serializability, exactly: whatever versions clients send, a run's tables are at every moment
      those of executing the committed requests one at a time, in commit order, if and only if
      no commit was disturbed. */
  lemma {:induction false} SerializableIffUndisturbed(ss: seq<State>, steps: seq<Step>, n: nat)
    requires Run(ss, steps) && n < |ss|
    ensures (forall i :: 0 <= i <= n ==> SerialAt(ss, steps, i))
            <==> (forall m :: 0 <= m < n ==> Undisturbed(ss[m], steps[m]))
  {
    hide Apply, Enabled, Init, SerialAt, Undisturbed, AtomicEffect;
    if n == 0 {
      SerialStart(ss, steps);
    } else {
      SerializableIffUndisturbed(ss, steps, n - 1);
      StepIsAtomicIffUndisturbed(ss, steps, n - 1);
      if SerialAt(ss, steps, n - 1) {
        SerialStep(ss, steps, n - 1);
      }
    }
  }

  lemma SerialStart(ss: seq<State>, steps: seq<Step>)
    requires Run(ss, steps)
    ensures SerialAt(ss, steps, 0)
  {
  }

  lemma SerialStep(ss: seq<State>, steps: seq<Step>, i: nat)
    requires Run(ss, steps) && i < |steps| && SerialAt(ss, steps, i)
    ensures SerialAt(ss, steps, i + 1) <==> AtomicEffect(ss[i], steps[i], ss[i + 1])
  {
    var ops := OpsUpTo(ss, steps, i);
    var ops' := ops + OpsOf(ss[i], steps[i]);
    if Commits(ss[i], steps[i]) {
      CommitShape(ss[i], steps[i]);
      assert ops'[..|ops|] == ops;
    } else {
      assert ops' == ops;
      StepIsAtomicIffUndisturbed(ss, steps, i);
    }
  }

  // ---------- terminal decisions ----------

  /** A fresh update or transition of a decision finds a draft. */
  lemma FreshWriteFindsDraft(rows: map<Key, Row>, c: Commit)
    requires CommitOk(rows, c) && Fresh(c) && Guarded(c.req) && c.key.agg == PriorityDecision
    ensures rows[c.key].status == DRAFT && !IsFinal(rows[c.key].status)
  {
    DecisionEdges(c.snap.status, c.next.status);
    DecisionEdges(DRAFT, DRAFT);
  }

  lemma FinalStep(rows0: map<Key, Row>, st: State, step: Step, k: Key)
    requires Inv(rows0, st) && FreshInv(st, k) && Enabled(st, step)
    requires k in st.db.rows && k.agg == PriorityDecision && IsFinal(st.db.rows[k].status)
    ensures var db' := Apply(st, step).db;
            && k in db'.rows && db'.rows[k] == st.db.rows[k].(deleted := db'.rows[k].deleted)
            && RevisionsOf(db', k) == RevisionsOf(st.db, k)
  {
    if Commits(st, step) {
      CommitIsFresh(rows0, st, step, k);
      var c := CommitOf(st, step);
      if c.key == k && Guarded(c.req) {
        FreshWriteFindsDraft(st.db.rows, c);
      }
    } else if !(step.Log? && !step.fault) {
      QuietShape(st, step);
    }
  }

  /** If a run is honest on a decision, then once it is final no later step changes its status,
      version, business fields or revisions; only its deletion mark can still be set. */
  lemma {:induction false} FinalIsForever(ss: seq<State>, steps: seq<Step>, i: nat, j: nat, k: Key)
    requires HonestOn(ss, steps, k) && i <= j < |ss|
    requires k in ss[i].db.rows && k.agg == PriorityDecision && IsFinal(ss[i].db.rows[k].status)
    ensures k in ss[j].db.rows && ss[j].db.rows[k] == ss[i].db.rows[k].(deleted := ss[j].db.rows[k].deleted)
    ensures RevisionsOf(ss[j].db, k) == RevisionsOf(ss[i].db, k)
    decreases j
  {
    hide Apply, Enabled, Inv, FreshInv;
    if i < j {
      FinalIsForever(ss, steps, i, j - 1, k);
      Always(ss, steps, j - 1);
      FreshAlways(ss, steps, j - 1, k);
      FinalStep(ss[0].db.rows, ss[j - 1], steps[j - 1], k);
    }
  }

  /** All revisions but the last are drafts. */
  predicate DraftsFirst(revisions: seq<Revision>) {
    forall m :: 0 <= m < |revisions| - 1 ==> revisions[m].status == DRAFT
  }

  lemma DraftsFirstGrows(revisions: seq<Revision>, row: Row, r: Revision)
    requires ChainOk(row, revisions) && row.status == DRAFT && DraftsFirst(revisions)
    ensures DraftsFirst(revisions + [r])
  {
  }

  lemma DraftsFirstKept(db: Db, c: Commit, db': Db, k: Key)
    requires ChainInv(db) && Explains(db, c, db') && (c.key == k ==> Fresh(c)) && k.agg == PriorityDecision
    requires k in db.rows ==> DraftsFirst(RevisionsOf(db, k))
    ensures k in db'.rows ==> DraftsFirst(RevisionsOf(db', k))
  {
    hide ChainOk, Check, Edited, Older, RevisionFor;
    if c.key == k && Guarded(c.req) {
      FreshWriteFindsDraft(db.rows, c);
      DraftsFirstGrows(RevisionsOf(db, k), db.rows[k], RevisionFor(c.req, c.next));
    }
  }

  lemma DraftsFirstStep(rows0: map<Key, Row>, st: State, step: Step, k: Key)
    requires Inv(rows0, st) && FreshInv(st, k) && Enabled(st, step) && k.agg == PriorityDecision
    requires k in st.db.rows ==> DraftsFirst(RevisionsOf(st.db, k))
    ensures k in Apply(st, step).db.rows ==> DraftsFirst(RevisionsOf(Apply(st, step).db, k))
  {
    if Commits(st, step) {
      CommitIsFresh(rows0, st, step, k);
      DraftsFirstKept(st.db, CommitOf(st, step), Apply(st, step).db, k);
    } else if !(step.Log? && !step.fault) {
      QuietShape(st, step);
    }
  }

  /** A decision's revision statuses read draft, ..., draft and then at most one final. */
  lemma {:induction false} DraftsThenFinal(ss: seq<State>, steps: seq<Step>, i: nat, k: Key)
    requires HonestOn(ss, steps, k) && i < |ss| && k.agg == PriorityDecision
    requires k in ss[0].db.rows ==> DraftsFirst(RevisionsOf(ss[0].db, k))
    ensures k in ss[i].db.rows ==> DraftsFirst(RevisionsOf(ss[i].db, k))
  {
    hide Apply, Enabled, Inv, FreshInv;
    if i > 0 {
      DraftsThenFinal(ss, steps, i - 1, k);
      Always(ss, steps, i - 1);
      FreshAlways(ss, steps, i - 1, k);
      DraftsFirstStep(ss[0].db.rows, ss[i - 1], steps[i - 1], k);
    }
  }

  // ---------- status walks and audit flow ----------

  /** The committed statuses of a row, in version order, walk its graph from the seeded or
      initial status: transitions follow edges, updates stay put, and the walk ends at the
      row's status after as many moves as the version has risen. */
  lemma StatusesWalkTheGraph(ss: seq<State>, steps: seq<Step>, i: nat, k: Key)
    requires HonestOn(ss, steps, k) && i < |ss| && k in ss[i].db.rows
    ensures var path, moves := StatusPath(ss[0].db.rows, ss[i].history, k), Moves(ss[i].history, k);
            && IsWalk(Transitions(k.agg), path, moves)
            && path[0] == OriginStatus(ss[0].db.rows, k) && path[|moves|] == ss[i].db.rows[k].status
            && BaseVersion(ss[0].db.rows, k) + |moves| == ss[i].db.rows[k].version
  {
    Always(ss, steps, i);
    FreshAlways(ss, steps, i, k);
    PathIsWalk(ss[0].db.rows, ss[i].history, k);
    MovesCountWrites(ss[i].history, k);
    VersionCountsCommits(ss[0].db.rows, ss[i].history, k);
  }

  /** Transition audits into a status less those out of it, with the committed transitions not
      audited yet or whose audit failed, make up the change of status since the row's origin. */
  lemma AuditFlowConserved(ss: seq<State>, steps: seq<Step>, i: nat, k: Key, status: string)
    requires HonestOn(ss, steps, k) && i < |ss| && k in ss[i].db.rows
    ensures AuditFlow(ss[i].audits, k, status) + Owed(ss[i].history, AuditRids(ss[i].audits), k, status)
            == Bit(ss[i].db.rows[k].status == status) - Bit(OriginStatus(ss[0].db.rows, k) == status)
  {
    Always(ss, steps, i);
    FreshAlways(ss, steps, i, k);
    OwnedAlways(ss, steps, i);
    FlowTelescopes(ss[0].db.rows, ss[i].history, k, status);
  }

  /** Once every commit is audited the log alone determines the row's status. */
  lemma AuditsDetermineStatus(ss: seq<State>, steps: seq<Step>, i: nat, k: Key, status: string)
    requires HonestOn(ss, steps, k) && i < |ss| && k in ss[i].db.rows
    requires Rids(ss[i].history) <= AuditRids(ss[i].audits)
    ensures ss[i].db.rows[k].status == status
            <==> AuditFlow(ss[i].audits, k, status) + Bit(OriginStatus(ss[0].db.rows, k) == status) == 1
  {
    AuditFlowConserved(ss, steps, i, k, status);
    NothingOwed(ss[i].history, AuditRids(ss[i].audits), k, status);
  }

  lemma {:induction false} NothingOwed(history: seq<Commit>, audited: set<nat>, k: Key, status: string)
    requires forall j :: 0 <= j < |history| ==> history[j].rid in audited
    ensures Owed(history, audited, k, status) == 0
  {
    if history != [] {
      NothingOwed(history[..|history| - 1], audited, k, status);
    }
  }
}
