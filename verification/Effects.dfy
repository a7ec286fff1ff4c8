/** What requests do and what they are answered, said of rows, revisions, audit entries and replies
    themselves and not by way of the functions that compute them. */
module Effects {
  import opened Domain
  import opened Text
  import opened Store
  import opened Protocol
  import opened History
  import opened Invariants
  import opened Ownership
  import opened Guarantees
  import opened Discipline

  // ---------- why a request is refused on what it read ----------

  /** The row gives the server this reason to refuse the request; earlier checks have passed. */
  predicate Refuses(row: Row, req: Request, e: Error)
    requires !req.Create?
  {
    var decision := req.key.agg == PriorityDecision;
    var isPreparer := req.actor == row.preparedBy;
    var reviews := req.role == Reviewer || req.role == Admin;
    match e
    case DecisionLocked => decision && (req.Update? || req.Delete?) && row.status != "draft"
    case NotDecisionOwner => decision && req.Update? && row.status == "draft" && !isPreparer && req.role != Admin
    case InvalidInput =>
      && req.Update? && !Complete(req.key.agg, row.code, req.fields)
      && (decision ==> row.status == "draft" && (isPreparer || req.role == Admin))
    case ReviewRole => decision && req.Transition? && !reviews
    case SeparationOfDuty => decision && req.Transition? && reviews && isPreparer
    case InvalidTransition =>
      && req.Transition? && (row.status, Trim(req.target)) !in Edges(req.key.agg)
      && (decision ==> reviews && !isPreparer)
    case _ => false
  }

  /** The server's checks give exactly these reasons. */
  lemma CheckRefuses(req: Request, row: Row, e: Error)
    requires !req.Create?
    ensures Check(req, row) == Some(e) <==> Refuses(row, req, e)
  {
    hide ValidFields, Complete, CanTransition, Transitions, Edges;
    if req.Update? {
      ValidIffComplete(req.key.agg, row.code, req.fields);
    } else if req.Transition? {
      TransitionsAreEdges(req.key.agg, row.status, Trim(req.target));
    }
  }

  ghost predicate Accepts(row: Row, req: Request)
    requires !req.Create?
  {
    forall e :: !Refuses(row, req, e)
  }

  lemma CheckAccepts(req: Request, row: Row)
    requires !req.Create?
    ensures Check(req, row) == None <==> Accepts(row, req)
  {
    hide Check, Refuses;
    forall e ensures Check(req, row) == Some(e) <==> Refuses(row, req, e) {
      CheckRefuses(req, row, e);
    }
    if Check(req, row).Some? {
      assert Refuses(row, req, Check(req, row).value);
    }
  }

  // ---------- what a commit does to its row ----------

  /** A new record. */
  predicate Creates(c: Commit)
    requires c.req.Create?
  {
    && c.prior == None && c.key.agg == c.req.agg && Complete(c.req.agg, c.req.code, c.req.fields)
    && c.next.code == ToUpper(Trim(c.req.code)) && StoredFrom(c.next.fields, c.req.fields)
    && c.next.version == 1 && !c.next.deleted && c.next.createdAt == c.next.updatedAt
    && (match c.req.agg
        case BridgeAsset => c.next.status == "active" && c.next.preparedBy == ""
        case InspectionRound => c.next.status == "planned" && c.next.preparedBy == ""
        case DefectFinding => c.next.status == "new" && c.next.preparedBy == ""
        case PriorityDecision => c.next.status == "draft" && c.next.preparedBy == c.req.actor)
  }

  /** Columns that no update or transition writes; and the version goes up by one. */
  predicate Succeeds(row: Row, next: Row, req: Request)
    requires Guarded(req)
  {
    && !row.deleted && !next.deleted && row.version == req.expected && next.version == req.expected + 1
    && next.code == row.code && next.preparedBy == row.preparedBy && next.createdAt == row.createdAt
  }

  /** The commit does to its row what its request asks for and nothing else. */
  predicate DoesAsAsked(c: Commit) {
    if c.req.Create? then Creates(c)
    else
      && c.prior.Some? && c.key == c.req.key
      && var row := c.prior.value;
         match c.req
         case Update(_, _, fields, _, _, _) =>
           && Succeeds(row, c.next, c.req) && StoredFrom(c.next.fields, fields) && c.next.status == c.snap.status
           && Complete(c.key.agg, c.next.code, fields)
         case Transition(_, _, target, _, _, _, _) =>
           && Succeeds(row, c.next, c.req) && c.next.fields == c.snap.fields && c.next.status == Trim(target)
           && (c.snap.status, c.next.status) in Edges(c.key.agg)
         case Delete(_, _, _, _) => !row.deleted && c.next == row.(deleted := true)
  }

  lemma CommitDoesAsAsked(rows: map<Key, Row>, c: Commit)
    requires CommitOk(rows, c)
    ensures DoesAsAsked(c) && c.prior == (if c.key in rows then Some(rows[c.key]) else None)
    ensures !c.req.Create? ==> Accepts(c.snap, c.req)
  {
    hide Accepts, Complete, ValidFields, CanTransition, Transitions, Edges, Normalize, StoredFrom;
    match c.req {
      case Create(agg, code, fields, _, _, _) =>
        ValidIffComplete(agg, code, fields);
        NormalizeStores(fields);
      case Update(key, _, fields, _, _, _) =>
        CheckAccepts(c.req, c.snap);
        ValidIffComplete(key.agg, c.snap.code, fields);
        NormalizeStores(fields);
      case Transition(key, _, target, _, _, _, _) =>
        CheckAccepts(c.req, c.snap);
        TransitionsAreEdges(key.agg, c.snap.status, Trim(target));
      case Delete(_, _, _, _) =>
        CheckAccepts(c.req, c.snap);
    }
  }

  // ---------- every commit of a run, from its read to its write ----------

  /** At step `n` the request read this live row, at this clock reading, and was not refused. */
  ghost predicate ReadAt(ss: seq<State>, steps: seq<Step>, n: nat, rid: nat, snap: Row, now: int) {
    && n < |steps| < |ss| && steps[n] == Read(rid, now, false) && rid < |ss[n].procs|
    && var req := ss[n].procs[rid].req;
       !req.Create? ==> Fetch(ss[n].db, req.key) == Some(snap) && Accepts(snap, req)
  }

  /** A request past its checks has read its snapshot at an earlier step of the run. */
  lemma {:induction false} CheckedHasRead(ss: seq<State>, steps: seq<Step>, i: nat, r: nat) returns (n: nat, now: int)
    requires Run(ss, steps) && i < |ss| && r < |ss[i].procs|
    requires ss[i].procs[r].pc.Checked? || ss[i].procs[r].pc.CheckedDelete?
    ensures n < i && ReadAt(ss, steps, n, r, ss[i].procs[r].pc.snap, now)
    ensures ss[i].procs[r].pc.Checked? ==> ss[i].procs[r].pc.item.updatedAt == now
  {
    hide Check, Accepts, Transact, ValidFields, RevisionFor, Fetch;
    var st, step := ss[i - 1], steps[i - 1];
    assert ss[i] == Apply(st, step);
    if step.Read? && step.rid == r {
      n, now := i - 1, step.now;
      var req := st.procs[r].req;
      if !req.Create? {
        CheckAccepts(req, Fetch(st.db, req.key).value);
      }
    } else {
      n, now := CheckedHasRead(ss, steps, i - 1, r);
    }
  }

  /** At step `m` the commit takes place: it finds the row it says it found, leaves the row it says
      it left, touches no other row, and does as its request asks. */
  ghost predicate Lands(ss: seq<State>, steps: seq<Step>, m: nat, c: Commit) {
    && m < |steps| && m + 1 < |ss| && steps[m].Write? && steps[m].rid == c.rid
    && c.rid < |ss[m].procs| && c.req == ss[m].procs[c.rid].req
    && c.prior == (if c.key in ss[m].db.rows then Some(ss[m].db.rows[c.key]) else None)
    && ss[m + 1].db.rows == ss[m].db.rows[c.key := c.next] && ss[m + 1].history == ss[m].history + [c]
    && DoesAsAsked(c)
  }

  lemma CommitCarries(st: State, step: Step)
    requires Enabled(st, step) && Commits(st, step)
    ensures var pc, c := st.procs[step.rid].pc, CommitOf(st, step);
            && (pc.Checked? || pc.CheckedDelete?)
            && (!c.req.Create? ==> c.snap == pc.snap) && (pc.Checked? ==> c.next.updatedAt == pc.item.updatedAt)
            && (c.req.Delete? <==> pc.CheckedDelete?)
    ensures Apply(st, step).db.rows == st.db.rows[CommitOf(st, step).key := CommitOf(st, step).next]
  {
    hide Check, Edited, NewItem, ValidFields, RevisionFor;
  }

  lemma StepLands(ss: seq<State>, steps: seq<Step>, m: nat)
    requires Run(ss, steps) && m < |steps| && Commits(ss[m], steps[m])
    ensures Lands(ss, steps, m, CommitOf(ss[m], steps[m]))
    ensures Explains(ss[m].db, CommitOf(ss[m], steps[m]), ss[m + 1].db)
  {
    hide Check, Edited, NewItem, ValidFields, RevisionFor, CommitOk, DoesAsAsked, Accepts;
    var st, step := ss[m], steps[m];
    Always(ss, steps, m);
    assert ProcOk(st.db.rows, st.procs[step.rid]);
    CommitShape(st, step);
    CommitCarries(st, step);
    TransactIsLegal(st.db, step.rid, st.procs[step.rid], step.id);
    CommitDoesAsAsked(st.db.rows, CommitOf(st, step));
  }

  lemma {:induction false} CommitMoment(ss: seq<State>, steps: seq<Step>, i: nat, j: nat) returns (m: nat)
    requires Run(ss, steps) && i < |ss| && j < |ss[i].history|
    ensures m < i && |ss[m].history| == j && Commits(ss[m], steps[m]) && CommitOf(ss[m], steps[m]) == ss[i].history[j]
  {
    hide Apply, Enabled, Transact;
    var st, step := ss[i - 1], steps[i - 1];
    assert ss[i] == Apply(st, step);
    if Commits(st, step) {
      CommitShape(st, step);
      if j == |st.history| {
        m := i - 1;
        return;
      }
    } else if step.Log? && !step.fault {
      AuditShape(st, step);
    } else {
      QuietShape(st, step);
    }
    m := CommitMoment(ss, steps, i - 1, j);
  }

  /** Every commit of every run was read at one step, accepted on the very row read there, and took
      place at a later step, where it did as asked; its update time is the clock reading of the former. */
  lemma CommitIsTraced(ss: seq<State>, steps: seq<Step>, i: nat, j: nat) returns (n: nat, m: nat, now: int)
    requires Run(ss, steps) && i < |ss| && j < |ss[i].history|
    ensures var c := ss[i].history[j];
            && n < m < i && ReadAt(ss, steps, n, c.rid, c.snap, now) && Lands(ss, steps, m, c)
            && (!c.req.Delete? ==> c.next.updatedAt == now)
    ensures |ss[m].history| == j && ss[n].procs[ss[i].history[j].rid].req == ss[i].history[j].req
  {
    hide Apply, Enabled, Transact, Accepts, DoesAsAsked, Inv;
    m := CommitMoment(ss, steps, i, j);
    StepLands(ss, steps, m);
    CommitCarries(ss[m], steps[m]);
    n, now := CheckedHasRead(ss, steps, m, steps[m].rid);
    LogsGrow(ss, steps, n, m);
  }

  // ---------- replies ----------

  /** At moment `m`, no earlier than its commit, the request is shown the row as it is stored. */
  predicate Shown(ss: seq<State>, m: nat, c: Commit, row: Row) {
    && m < |ss| && c in ss[m].history
    && c.key in ss[m].db.rows && !ss[m].db.rows[c.key].deleted && row == ss[m].db.rows[c.key]
  }

  predicate IsPlainCreation(req: Request) { req.Create? && req.agg != PriorityDecision }

  lemma {:induction false} LoggedHasCommit(ss: seq<State>, steps: seq<Step>, i: nat, r: nat) returns (c: Commit)
    requires Run(ss, steps) && i < |ss| && r < |ss[i].procs| && ss[i].procs[r].pc.Logged?
    ensures c in ss[i].history && c.rid == r && c.key == ss[i].procs[r].pc.key && c.req == ss[i].procs[r].req
    ensures !IsPlainCreation(c.req)
  {
    hide AfterRead, AfterValidation, Transact, AuditOf, AfterReply;
    var st, step := ss[i - 1], steps[i - 1];
    assert ss[i] == Apply(st, step);
    LogsGrow(ss, steps, i - 1, i);
    if step.Log? && step.rid == r {
      OwnedAlways(ss, steps, i - 1);
      c := st.procs[r].pc.commit;
    } else {
      MoverIsLogged(st, step, r);
      c := LoggedHasCommit(ss, steps, i - 1, r);
    }
  }

  lemma MoverIsLogged(st: State, step: Step, r: nat)
    requires Enabled(st, step) && r < |Apply(st, step).procs| && Apply(st, step).procs[r].pc.Logged?
    requires !(step.Log? && step.rid == r)
    ensures r < |st.procs| && st.procs[r] == Apply(st, step).procs[r]
  {
    hide Check, Edited, NewItem, ValidFields, RevisionFor, Transact;
  }

  lemma DoneStays(st: State, step: Step, r: nat)
    requires Enabled(st, step) && r < |st.procs| && st.procs[r].pc.Done?
    ensures r < |Apply(st, step).procs| && Apply(st, step).procs[r] == st.procs[r]
  {
    hide Check, Edited, NewItem, ValidFields, RevisionFor, Transact;
  }

  /** A step that ends a request well either answers a committed request with the row it finds, or
      ends a plain creation with the row it stored, or a deletion. */
  lemma WellEnded(st: State, step: Step, r: nat)
    requires Enabled(st, step) && r < |Apply(st, step).procs|
    requires Apply(st, step).procs[r].pc.Done? && !Apply(st, step).procs[r].pc.outcome.Failed?
    requires r < |st.procs| ==> !st.procs[r].pc.Done?
    ensures !step.Invoke? && step.rid == r && r < |st.procs|
    ensures var out := Apply(st, step).procs[r].pc.outcome;
            if step.Reply? then !step.fault && Fetch(st.db, st.procs[r].pc.key).Some?
                                && out == Ok(st.db.rows[st.procs[r].pc.key])
            else && step.Log?
                 && var c := st.procs[r].pc.commit;
                    if c.req.Delete? then !step.fault && out == Deleted
                    else IsPlainCreation(c.req) && out == Ok(c.next)
  {
    hide Check, Edited, NewItem, ValidFields, RevisionFor, Transact;
  }

  /** A row that answers a creation, update or transition is the live row under the key of the
      request's commit, as stored at a moment no earlier than that commit - or, for a plain
      creation, the very row the commit stored. */
  lemma {:induction false} RepliesShowStoredRows(ss: seq<State>, steps: seq<Step>, i: nat, r: nat)
    returns (c: Commit, m: nat)
    requires Run(ss, steps) && i < |ss| && r < |ss[i].procs|
    requires ss[i].procs[r].pc.Done? && ss[i].procs[r].pc.outcome.Ok?
    ensures c in ss[i].history && c.rid == r && c.req == ss[i].procs[r].req && m <= i
    ensures if IsPlainCreation(c.req) then ss[i].procs[r].pc.outcome.row == c.next
            else Shown(ss, m, c, ss[i].procs[r].pc.outcome.row)
  {
    hide Apply, Enabled, Inv;
    var st, step := ss[i - 1], steps[i - 1];
    assert Enabled(st, step) && ss[i] == Apply(st, step);
    LogsGrow(ss, steps, i - 1, i);
    m := i - 1;
    if r < |st.procs| && st.procs[r].pc.Done? {
      DoneStays(st, step, r);
      c, m := RepliesShowStoredRows(ss, steps, i - 1, r);
    } else {
      WellEnded(st, step, r);
      OwnedAlways(ss, steps, i - 1);
      LogOrReply(st, step);
      if step.Reply? {
        c := LoggedHasCommit(ss, steps, i - 1, r);
      } else {
        c := st.procs[r].pc.commit;
      }
    }
  }

  lemma LogOrReply(st: State, step: Step)
    requires Enabled(st, step)
    ensures step.Log? ==> st.procs[step.rid].pc.Written?
    ensures step.Reply? ==> st.procs[step.rid].pc.Logged?
  {
  }

  /** A deletion that is reported done has marked its row, which stays marked, and is audited. */
  lemma {:induction false} DeletionsAreDone(ss: seq<State>, steps: seq<Step>, i: nat, r: nat) returns (c: Commit)
    requires Run(ss, steps) && i < |ss| && r < |ss[i].procs| && ss[i].procs[r].pc == Done(Deleted)
    ensures c in ss[i].history && c.rid == r && c.req == ss[i].procs[r].req && c.req.Delete?
    ensures c.req.key in ss[i].db.rows && ss[i].db.rows[c.req.key].deleted && r in AuditRids(ss[i].audits)
  {
    hide Apply, Enabled, Inv, DoesAsAsked;
    var st, step := ss[i - 1], steps[i - 1];
    assert Enabled(st, step) && ss[i] == Apply(st, step);
    LogsGrow(ss, steps, i - 1, i);
    Ages(ss, steps, i - 1, i);
    if r < |st.procs| && st.procs[r].pc.Done? {
      DoneStays(st, step, r);
      c := DeletionsAreDone(ss, steps, i - 1, r);
      assert AuditRids(st.audits) <= AuditRids(ss[i].audits) by {
        AuditRidsGrow(st.audits, ss[i].audits);
      }
    } else {
      WellEnded(st, step, r);
      LogOrReply(st, step);
      OwnedAlways(ss, steps, i - 1);
      AuditShape(st, step);
      c := st.procs[r].pc.commit;
      AuditRidsAppend(st.audits, AuditOf(c));
      AuditHasRid(c);
      DeletedStays(ss, steps, i, c);
    }
  }

  lemma AuditHasRid(c: Commit)
    ensures AuditOf(c).rid == c.rid
  {
  }

  lemma AuditRidsGrow(audits: seq<Audit>, later: seq<Audit>)
    requires audits <= later
    ensures AuditRids(audits) <= AuditRids(later)
  {
    forall r | r in AuditRids(audits) ensures r in AuditRids(later) {
      var j :| 0 <= j < |audits| && audits[j].rid == r;
      assert later[j].rid == r;
    }
  }

  lemma DeletedStays(ss: seq<State>, steps: seq<Step>, i: nat, c: Commit)
    requires Run(ss, steps) && i < |ss| && c in ss[i].history && c.req.Delete?
    ensures c.req.key in ss[i].db.rows && ss[i].db.rows[c.req.key].deleted
  {
    hide Apply, Enabled, Inv;
    var j :| 0 <= j < |ss[i].history| && ss[i].history[j] == c;
    var n, m, now := CommitIsTraced(ss, steps, i, j);
    Ages(ss, steps, m + 1, i);
  }

  // ---------- refusals and failures ----------

  /** At this step its request `r` fails for reason `e`. */
  predicate FailsFor(st: State, step: Step, e: Error)
    requires Enabled(st, step) && !step.Invoke?
  {
    var p := st.procs[step.rid];
    if step.fault then
      if step.Log? then e == AuditFault && (p.req.Transition? || p.req.Delete?) else e == StorageFault
    else if step.Read? then
      if p.req.Create? then e == InvalidInput && !Complete(p.req.agg, p.req.code, p.req.fields)
      else if !IsLive(st.db.rows, p.req.key) then e == NotFound
      else Refuses(st.db.rows[p.req.key], p.req, e)
    else if step.Write? then
      if p.req.Create? then e == DuplicateCode && HoldsCode(st.db.rows, p.req.agg, ToUpper(Trim(p.req.code)))
      else if p.req.Delete? then e == NotFound && !IsLive(st.db.rows, p.req.key)
      else e == VersionConflict
           && !(IsLive(st.db.rows, p.req.key) && st.db.rows[p.req.key].version == p.req.expected)
    else step.Reply? && e == NotFound && !IsLive(st.db.rows, p.pc.key)
  }

  predicate IsLive(rows: map<Key, Row>, key: Key) {
    key in rows && !rows[key].deleted
  }

  /** A row of the table, live or deleted, has the code. */
  predicate HoldsCode(rows: map<Key, Row>, agg: Aggregate, code: string) {
    exists k :: k in rows && k.agg == agg && rows[k].code == code
  }

  lemma ReadFails(st: State, step: Step, e: Error)
    requires Enabled(st, step) && step.Read?
    ensures Apply(st, step).procs[step.rid].pc == Done(Failed(e)) <==> FailsFor(st, step, e)
  {
    hide Check, Edited, NewItem, ValidFields, RevisionFor, Refuses, Complete;
    var req := st.procs[step.rid].req;
    if req.Create? {
      ValidIffComplete(req.agg, req.code, req.fields);
    } else if IsLive(st.db.rows, req.key) {
      CheckRefuses(req, st.db.rows[req.key], e);
    }
  }

  lemma CreationFails(db: Db, rid: nat, p: Proc, id: nat, e: Error)
    requires p.req.Create? && CanWrite(db, p, id) && ProcOk(db.rows, p) && ChainInv(db)
    ensures Transact(db, rid, p, id) == Aborted(e)
            <==> e == DuplicateCode && HoldsCode(db.rows, p.req.agg, ToUpper(Trim(p.req.code)))
  {
    hide ChainOk, ValidFields, Normalize;
    assert RevisionsOf(db, Key(p.req.agg, id)) == [];
  }

  lemma WriteFails(st: State, step: Step, e: Error)
    requires Enabled(st, step) && step.Write? && ProcOk(st.db.rows, st.procs[step.rid]) && ChainInv(st.db)
    ensures Apply(st, step).procs[step.rid].pc == Done(Failed(e)) <==> FailsFor(st, step, e)
  {
    hide ChainOk, Check, Edited, NewItem, ValidFields, RevisionFor, HoldsCode;
    var p := st.procs[step.rid];
    if p.req.Create? {
      CreationFails(st.db, step.rid, p, step.id, e);
    } else if Guarded(p.req) {
      assert p.pc.revision.version == p.req.expected + 1 by {
        RevisionVersion(p.req, p.pc.snap, p.pc.item);
      }
      IndexNeverRejects(st.db, p.req.key, p.req.expected, p.pc.item, p.pc.revision);
    }
  }

  lemma RevisionVersion(req: Request, snap: Row, item: Row)
    requires Guarded(req) && item == Edited(req, snap, item.updatedAt)
    ensures RevisionFor(req, item).version == req.expected + 1
  {
  }

  /** A step ends its request with a failure exactly if there is that reason for it, in the tables
      as they are at that moment, and no step fails for any other reason. */
  lemma StepFailsIffReason(ss: seq<State>, steps: seq<Step>, i: nat, e: Error)
    requires Run(ss, steps) && i < |steps| && !steps[i].Invoke?
    ensures ss[i + 1].procs[steps[i].rid].pc == Done(Failed(e)) <==> FailsFor(ss[i], steps[i], e)
  {
    var st, step := ss[i], steps[i];
    Always(ss, steps, i);
    assert ProcOk(st.db.rows, st.procs[step.rid]);
    hide ProcOk, Inv, ChainInv, FailsFor, Apply;
    if step.Read? {
      ReadFails(st, step, e);
    } else if step.Write? {
      WriteFails(st, step, e);
    } else {
      LaterFails(st, step, e);
    }
  }

  lemma LaterFails(st: State, step: Step, e: Error)
    requires Enabled(st, step) && (step.Log? || step.Reply?) && ProcOk(st.db.rows, st.procs[step.rid])
    ensures Apply(st, step).procs[step.rid].pc == Done(Failed(e)) <==> FailsFor(st, step, e)
  {
    hide Check, Edited, NewItem, ValidFields, RevisionFor, Transact, AuditOf;
  }

  /** Whatever failure a request is answered with, there was a step at which the reason held. */
  lemma {:induction false} FailuresAreJustified(ss: seq<State>, steps: seq<Step>, i: nat, r: nat, e: Error)
    returns (m: nat)
    requires Run(ss, steps) && i < |ss| && r < |ss[i].procs| && ss[i].procs[r].pc == Done(Failed(e))
    ensures m < i && !steps[m].Invoke? && steps[m].rid == r && FailsFor(ss[m], steps[m], e)
  {
    hide Apply, Enabled, Inv, FailsFor;
    var st, step := ss[i - 1], steps[i - 1];
    assert Enabled(st, step) && ss[i] == Apply(st, step);
    if r < |st.procs| && st.procs[r].pc.Done? {
      DoneStays(st, step, r);
      m := FailuresAreJustified(ss, steps, i - 1, r, e);
    } else {
      m := i - 1;
      OthersStay(st, step, r);
      StepFailsIffReason(ss, steps, m, e);
    }
  }

  lemma OthersStay(st: State, step: Step, r: nat)
    requires Enabled(st, step) && r < |Apply(st, step).procs| && Apply(st, step).procs[r].pc.Done?
    requires r < |st.procs| ==> !st.procs[r].pc.Done?
    ensures !step.Invoke? && step.rid == r
  {
    hide Check, Edited, NewItem, ValidFields, RevisionFor, Transact;
  }

  /** Input is called invalid only if a needed text is blank: of a creation's own, or of an update's
      and the code of the row it read.  So complete input never is. */
  lemma InvalidInputIsIncomplete(ss: seq<State>, steps: seq<Step>, i: nat, r: nat) returns (m: nat)
    requires Run(ss, steps) && i < |ss| && r < |ss[i].procs| && ss[i].procs[r].pc == Done(Failed(InvalidInput))
    ensures m < i && steps[m].Read? && steps[m].rid == r
    ensures var req := ss[i].procs[r].req;
            if req.Create? then !Complete(req.agg, req.code, req.fields)
            else req.Update? && IsLive(ss[m].db.rows, req.key)
                 && !Complete(req.key.agg, ss[m].db.rows[req.key].code, req.fields)
  {
    hide Complete, Apply, Inv;
    m := FailuresAreJustified(ss, steps, i, r, InvalidInput);
    LogsGrow(ss, steps, m, i);
  }

  // ---------- the revision chain ----------

  /** The revision records this commit on a decision. */
  predicate Records(r: Revision, c: Commit) {
    && r.version == c.next.version && r.status == c.next.status && r.evidence == c.next.fields.evidence
    && r.actor == c.req.actor && r.requestId == c.req.requestId && r.role == c.req.role
    && r.snapshot == FullSnapshot(c.next.code, c.next.fields, c.next.status, c.next.version, c.next.preparedBy)
    && (match c.req
        case Create(_, _, _, _, _, _) => r.reason == "decision draft created"
        case Update(_, _, _, _, _, _) => r.reason == "draft business fields updated"
        case Transition(_, _, _, reason, _, _, _) => r.reason == Trim(reason)
        case Delete(_, _, _, _) => false)
  }

  lemma RevisionRecords(c: Commit)
    requires !c.req.Delete?
    ensures Records(RevisionFor(c.req, c.next), c)
  {
    TrimmedStays("decision draft created");
    TrimmedStays("draft business fields updated");
    if c.req.Transition? {
      TrimTwice(c.req.reason);
    }
  }

  /** A commit adds its own revision to its decision's chain, a deletion none, and leaves others alone. */
  lemma CommitRecords(ss: seq<State>, steps: seq<Step>, m: nat, k: Key)
    requires Run(ss, steps) && m < |steps| && Commits(ss[m], steps[m]) && k.agg == PriorityDecision
    ensures var c, before, after := CommitOf(ss[m], steps[m]), RevisionsOf(ss[m].db, k), RevisionsOf(ss[m + 1].db, k);
            if c.key == k && !c.req.Delete?
            then |after| == |before| + 1 && after[..|before|] == before && Records(after[|before|], c)
                 && c.next.version == |after|
            else after == before
  {
    hide Apply, Enabled, Inv, CommitOk;
    var c := CommitOf(ss[m], steps[m]);
    StepLands(ss, steps, m);
    if c.key == k && !c.req.Delete? {
      RevisionRecords(c);
      ChainAgrees(ss, steps, m + 1, k);
    }
  }

  /** For every commit on a decision but a deletion, the chain holds at the place of the version it
      stored a revision that records it, from then on. */
  lemma CommitsAreRecorded(ss: seq<State>, steps: seq<Step>, i: nat, j: nat)
    requires Run(ss, steps) && i < |ss| && j < |ss[i].history|
    requires var c := ss[i].history[j]; c.key.agg == PriorityDecision && !c.req.Delete?
    ensures var c := ss[i].history[j];
            && 1 <= c.next.version <= |RevisionsOf(ss[i].db, c.key)|
            && Records(RevisionsOf(ss[i].db, c.key)[c.next.version - 1], c)
  {
    hide Apply, Enabled, Inv, Records;
    var m := CommitMoment(ss, steps, i, j);
    CommitRecords(ss, steps, m, ss[i].history[j].key);
    Ages(ss, steps, m + 1, i);
  }

  /** Conversely every revision that was not there at the start records such a commit. */
  lemma {:induction false} RevisionsAreCommits(ss: seq<State>, steps: seq<Step>, i: nat, k: Key, n: nat)
    requires Run(ss, steps) && i < |ss| && k.agg == PriorityDecision
    requires |RevisionsOf(ss[0].db, k)| <= n < |RevisionsOf(ss[i].db, k)|
    ensures exists c :: c in ss[i].history && c.key == k && Records(RevisionsOf(ss[i].db, k)[n], c)
  {
    hide Apply, Enabled, Inv, Records, Transact;
    var st, step := ss[i - 1], steps[i - 1];
    assert Enabled(st, step) && ss[i] == Apply(st, step);
    LogsGrow(ss, steps, i - 1, i);
    if Commits(st, step) {
      CommitRecords(ss, steps, i - 1, k);
      CommitShape(st, step);
    } else if step.Log? && !step.fault {
      LogLeavesDb(st, step);
    } else {
      QuietShape(st, step);
    }
    if n < |RevisionsOf(st.db, k)| {
      RevisionsAreCommits(ss, steps, i - 1, k, n);
      var c :| c in st.history && c.key == k && Records(RevisionsOf(st.db, k)[n], c);
      Ages(ss, steps, i - 1, i);
    } else {
      assert CommitOf(st, step) in ss[i].history;
    }
  }

  lemma LogLeavesDb(st: State, step: Step)
    requires Enabled(st, step) && step.Log?
    ensures Apply(st, step).db == st.db
  {
  }

  // ---------- the audit log ----------

  /** The audit entry tells of this commit. */
  predicate Tells(a: Audit, c: Commit) {
    && a.rid == c.rid && a.key == c.key
    && a.actor == (if c.req.actor == "" then "system" else c.req.actor)
    && a.requestId == (if c.req.requestId == "" then "untracked" else c.req.requestId)
    && (match c.req
        case Create(_, _, _, _, _, _) =>
          a.action == "create" && a.before == "" && a.after == c.next.status && a.detail == "created"
        case Update(_, _, _, _, _, _) =>
          && a.action == "update" && a.before == c.snap.status && a.after == c.snap.status
          && a.detail == "updated business fields"
        case Transition(_, _, target, reason, _, _, _) =>
          a.action == "transition" && a.before == c.snap.status && a.after == Trim(target) && a.detail == reason
        case Delete(_, _, _, _) =>
          a.action == "delete" && a.before == c.snap.status && a.after == "deleted" && a.detail == "soft deleted")
  }

  /** Every entry of the log tells of a commit of its request, the only one. */
  lemma AuditsTellOfCommits(ss: seq<State>, steps: seq<Step>, i: nat, n: nat)
    requires Run(ss, steps) && i < |ss| && n < |ss[i].audits|
    ensures exists c :: c in ss[i].history && Tells(ss[i].audits[n], c)
  {
    OwnedAlways(ss, steps, i);
    assert CalledFor(ss[i].history, ss[i].audits[n]);
    var c :| c in ss[i].history && ss[i].audits[n] == AuditOf(c);
    AuditTells(c);
  }

  lemma AuditTells(c: Commit)
    ensures Tells(AuditOf(c), c)
  {
  }

  // ---------- what stays true of rows ----------

  /** What one step does to a row that is there. */
  lemma RowStep(ss: seq<State>, steps: seq<Step>, m: nat, k: Key)
    requires Run(ss, steps) && m < |steps|
    ensures if Commits(ss[m], steps[m]) && CommitOf(ss[m], steps[m]).key == k
            then Lands(ss, steps, m, CommitOf(ss[m], steps[m]))
            else (k in ss[m + 1].db.rows <==> k in ss[m].db.rows)
                 && (k in ss[m].db.rows ==> ss[m + 1].db.rows[k] == ss[m].db.rows[k])
  {
    hide Inv, DoesAsAsked;
    var st, step := ss[m], steps[m];
    if Commits(st, step) {
      StepLands(ss, steps, m);
    } else if step.Log? && !step.fault {
      LogLeavesDb(st, step);
    } else {
      QuietShape(st, step);
    }
  }

  /** The row has all needed texts, or still the fields it had at the start of the run. */
  predicate CompleteOrOld(rows0: map<Key, Row>, k: Key, row: Row) {
    Complete(k.agg, row.code, row.fields) || (k in rows0 && row.code == rows0[k].code && row.fields == rows0[k].fields)
  }

  /** In any run every row whose fields a request has stored has all needed texts. */
  lemma {:induction false} StoredTextsAreComplete(ss: seq<State>, steps: seq<Step>, i: nat, k: Key)
    requires Run(ss, steps) && i < |ss| && k in ss[i].db.rows
    ensures CompleteOrOld(ss[0].db.rows, k, ss[i].db.rows[k])
  {
    hide Apply, Enabled, Inv, CompleteOrOld, DoesAsAsked, Accepts, Transact;
    if i == 0 {
      OldIsOld(ss[0].db.rows, k);
    } else {
      RowStep(ss, steps, i - 1, k);
      if Commits(ss[i - 1], steps[i - 1]) && CommitOf(ss[i - 1], steps[i - 1]).key == k {
        var c := CommitOf(ss[i - 1], steps[i - 1]);
        if k in ss[i - 1].db.rows {
          StoredTextsAreComplete(ss, steps, i - 1, k);
        }
        if Guarded(c.req) {
          CommitCarries(ss[i - 1], steps[i - 1]);
          var n, now := CheckedHasRead(ss, steps, i - 1, c.rid);
          LogsGrow(ss, steps, n, i - 1);
          GuardedKey(c);
          StoredTextsAreComplete(ss, steps, n, k);
          Ages(ss, steps, n, i - 1);
        }
        CommitKeepsComplete(ss[0].db.rows, c);
      } else {
        StoredTextsAreComplete(ss, steps, i - 1, k);
      }
    }
  }

  lemma OldIsOld(rows0: map<Key, Row>, k: Key)
    requires k in rows0
    ensures CompleteOrOld(rows0, k, rows0[k])
  {
  }

  lemma GuardedKey(c: Commit)
    requires DoesAsAsked(c) && Guarded(c.req)
    ensures c.key == c.req.key && c.prior.Some?
  {
  }

  lemma CommitKeepsComplete(rows0: map<Key, Row>, c: Commit)
    requires DoesAsAsked(c) && (c.prior.Some? ==> CompleteOrOld(rows0, c.key, c.prior.value))
    requires Guarded(c.req) ==> CompleteOrOld(rows0, c.key, c.snap) && c.snap.code == c.prior.value.code
    ensures CompleteOrOld(rows0, c.key, c.next)
  {
    hide Complete, StoredFrom;
    StoresComplete(c);
  }

  lemma StoresComplete(c: Commit)
    requires DoesAsAsked(c)
    ensures c.req.Create? || c.req.Update? ==> Complete(c.key.agg, c.next.code, c.next.fields)
  {
    if c.req.Create? {
      StoringKeepsComplete(c.key.agg, c.next.code, c.next.fields, c.req.fields);
      StoredCodeIsPresent(c.req.code);
    } else if c.req.Update? {
      StoringKeepsComplete(c.key.agg, c.next.code, c.next.fields, c.req.fields);
    }
  }

  /** In a run honest on a row only updates change its business fields: without one they stay, ... */
  lemma {:induction false} FieldsStay(ss: seq<State>, steps: seq<Step>, i: nat, j: nat, k: Key)
    requires HonestOn(ss, steps, k) && i <= j < |ss| && k in ss[i].db.rows
    requires forall m :: i <= m < j ==> !EditsAt(ss[m], steps[m], k)
    ensures k in ss[j].db.rows && ss[j].db.rows[k].fields == ss[i].db.rows[k].fields
    decreases j
  {
    hide Apply, Enabled, Inv, FreshInv, NotAhead, Transact, Lands;
    if i < j {
      FieldsStay(ss, steps, i, j - 1, k);
      RowStep(ss, steps, j - 1, k);
      if Commits(ss[j - 1], steps[j - 1]) && CommitOf(ss[j - 1], steps[j - 1]).key == k {
        assert !EditsAt(ss[j - 1], steps[j - 1], k);
        OnlyUpdatesSetFields(ss, steps, j - 1, k);
      }
    }
  }

  lemma OnlyUpdatesSetFields(ss: seq<State>, steps: seq<Step>, m: nat, k: Key)
    requires HonestOn(ss, steps, k) && m < |steps| && k in ss[m].db.rows
    requires Commits(ss[m], steps[m]) && CommitOf(ss[m], steps[m]).key == k
    requires !CommitOf(ss[m], steps[m]).req.Update?
    ensures k in ss[m + 1].db.rows && ss[m + 1].db.rows[k].fields == ss[m].db.rows[k].fields
  {
    hide Apply, Enabled, Inv, FreshInv, NotAhead, Transact, Succeeds, StoredFrom, Complete, Creates;
    StepLands(ss, steps, m);
    Always(ss, steps, m);
    FreshAlways(ss, steps, m, k);
    CommitIsFresh(ss[0].db.rows, ss[m], steps[m], k);
    NoSecondCreation(ss, steps, m);
  }

  lemma NoSecondCreation(ss: seq<State>, steps: seq<Step>, m: nat)
    requires Run(ss, steps) && m < |steps| && Commits(ss[m], steps[m])
    ensures CommitOf(ss[m], steps[m]).req.Create? ==> CommitOf(ss[m], steps[m]).key !in ss[m].db.rows
  {
    StepLands(ss, steps, m);
  }

  /** ... and after one they are the trimmed fields of the last. */
  lemma FieldsAreOfLastUpdate(ss: seq<State>, steps: seq<Step>, m: nat, j: nat, k: Key)
    requires HonestOn(ss, steps, k) && m < j < |ss| && EditsAt(ss[m], steps[m], k)
    requires forall n :: m < n < j ==> !EditsAt(ss[n], steps[n], k)
    ensures k in ss[j].db.rows && StoredFrom(ss[j].db.rows[k].fields, CommitOf(ss[m], steps[m]).req.fields)
  {
    hide Apply, Enabled, Inv, NotAhead, Transact, StoredFrom, Complete;
    StepLands(ss, steps, m);
    FieldsStay(ss, steps, m + 1, j, k);
  }

  /** No two rows of a table have the same code. */
  predicate CodesDiffer(rows: map<Key, Row>) {
    forall k, q :: k in rows && q in rows && k.agg == q.agg && rows[k].code == rows[q].code ==> k == q
  }

  /** Codes are unique in every run, deleted rows included. */
  lemma {:induction false} CodesStayUnique(ss: seq<State>, steps: seq<Step>, i: nat)
    requires Run(ss, steps) && i < |ss| && CodesDiffer(ss[0].db.rows)
    ensures CodesDiffer(ss[i].db.rows)
  {
    hide Apply, Enabled, Inv, Transact;
    if i > 0 {
      CodesStayUnique(ss, steps, i - 1);
      var st, step := ss[i - 1], steps[i - 1];
      if Commits(st, step) {
        StepLands(ss, steps, i - 1);
        CommitKeepsCodes(st.db.rows, CommitOf(st, step));
      } else if step.Log? && !step.fault {
        LogLeavesDb(st, step);
      } else {
        QuietShape(st, step);
      }
    }
  }

  lemma CommitKeepsCodes(rows: map<Key, Row>, c: Commit)
    requires CodesDiffer(rows) && CommitOk(rows, c)
    ensures CodesDiffer(rows[c.key := c.next])
  {
  }
}
