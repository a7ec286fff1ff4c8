/** What every reachable state keeps, whatever versions the clients send. */
module Invariants {
  import opened Domain
  import opened Store
  import opened Protocol
  import opened History

  // ---------- the revision chain ----------

  /** The snapshot stored with a revision describes the row. */
  predicate Describes(s: Snapshot, row: Row) {
    match s
    case FullSnapshot(code, fields, status, version, preparedBy) =>
      && code == row.code && fields == row.fields && status == row.status && version == row.version
      && preparedBy == row.preparedBy
    case SeedSnapshot(code, status, evidence) =>
      code == row.code && status == row.status && evidence == row.fields.evidence
  }

  /** Drafts are written by the preparer or an admin, final revisions by a reviewer or
      admin who is not the preparer. */
  predicate AuthorOk(preparedBy: string, r: Revision) {
    if r.status == DRAFT then r.actor == preparedBy || r.role == Admin
    else IsFinal(r.status) && (r.role == Reviewer || r.role == Admin) && r.actor != preparedBy
  }

  /** The revisions are versions 1..n in order, n is the row's version, and the last one
      agrees with the row. */
  predicate ChainOk(row: Row, revisions: seq<Revision>) {
    && |revisions| == row.version && row.version >= 1
    && (forall i :: 0 <= i < |revisions| ==> revisions[i].version == i + 1)
    && (forall i :: 0 <= i < |revisions| ==> AuthorOk(row.preparedBy, revisions[i]))
    && var last := revisions[|revisions| - 1];
       last.status == row.status && last.evidence == row.fields.evidence && Describes(last.snapshot, row)
  }

  ghost predicate ChainInv(db: Db) {
    && (forall k :: k in db.revisions ==> k in db.rows)
    && (forall k :: k in db.rows && k.agg == PriorityDecision ==> ChainOk(db.rows[k], RevisionsOf(db, k)))
  }

  // ---------- requests in flight ----------

  predicate ProcOk(rows: map<Key, Row>, p: Proc) {
    match p.pc
    case Invoked => true
    case Checked(snap, item, revision) =>
      && revision == RevisionFor(p.req, item)
      && (match p.req
          case Create(agg, code, fields, _, _, _) =>
            ValidFields(agg, code, fields) && item == NewItem(p.req, item.createdAt) && snap == item
          case Delete(_, _, _, _) => false
          case _ =>
            && ReadFrom(rows, p.req.key, snap) && Check(p.req, snap) == None
            && item == Edited(p.req, snap, item.updatedAt))
    case CheckedDelete(snap) =>
      p.req.Delete? && ReadFrom(rows, p.req.key, snap) && Check(p.req, snap) == None
    case Written(c) => c.req == p.req && Landed(rows, p.req, c.key) && c.next.version <= rows[c.key].version
    case Logged(key) => Landed(rows, p.req, key)
    case Done(out) => out.Ok? && Guarded(p.req) ==> out.row.version > p.req.expected
  }

  /** The request's own commit is in the table, possibly under later ones. */
  predicate Landed(rows: map<Key, Row>, req: Request, key: Key) {
    key in rows && (Guarded(req) ==> key == req.key && rows[key].version > req.expected)
  }

  ghost predicate ProcsInv(st: State) {
    forall i :: 0 <= i < |st.procs| ==> ProcOk(st.db.rows, st.procs[i])
  }

  /** The table is the replay of the commits, each legal on the table it found. */
  ghost predicate TableInv(rows0: map<Key, Row>, st: State) {
    HistoryOk(rows0, st.history) && st.db.rows == Replay(rows0, st.history)
  }

  // ---------- one step ----------

  /** Rows age and revision lists grow at the end only. */
  ghost predicate Evolves(db: Db, db': Db) {
    && (forall k :: k in db.rows ==> k in db'.rows && Older(db.rows[k], db'.rows[k]))
    && (forall k :: RevisionsOf(db, k) <= RevisionsOf(db', k))
  }

  lemma ProcAges(rows: map<Key, Row>, rows': map<Key, Row>, p: Proc)
    requires ProcOk(rows, p)
    requires forall k :: k in rows ==> k in rows' && Older(rows[k], rows'[k])
    ensures ProcOk(rows', p)
  {
  }

  /** The unique (decision, version) index never rejects the revision of an update whose
      row guard matched. */
  lemma IndexNeverRejects(db: Db, key: Key, expected: nat, item: Row, revision: Revision)
    requires ChainInv(db) && revision.version == expected + 1
    ensures UpdateTx(db, key, expected, item, revision) != DbErr(RevisionExists)
    ensures UpdateTx(db, key, expected, item, revision).DbOk?
            <==> Fetch(db, key).Some? && Fetch(db, key).value.version == expected
  {
    var row := Fetch(db, key);
    if row.Some? && row.value.version == expected {
      var db' := db.(rows := db.rows[key := Merge(row.value, item)]);
      assert RevisionsOf(db', key) == RevisionsOf(db, key);
      if key.agg == PriorityDecision {
        assert ChainOk(db.rows[key], RevisionsOf(db, key));
        assert !VersionTaken(RevisionsOf(db', key), revision.version);
      }
    }
  }

  /** The revision list a commit leaves for its own key. */
  function ChainAfter(revisions: seq<Revision>, c: Commit): seq<Revision> {
    if c.key.agg != PriorityDecision || c.req.Delete? then revisions
    else revisions + [RevisionFor(c.req, c.next)]
  }

  /** The transaction from `db` to `db'` is the legal commit `c`: one row and, for a
      decision, one revision change together, and nothing else changes. */
  ghost predicate Explains(db: Db, c: Commit, db': Db) {
    && CommitOk(db.rows, c)
    && db'.rows == db.rows[c.key := c.next]
    && (forall k :: k != c.key ==> RevisionsOf(db', k) == RevisionsOf(db, k))
    && RevisionsOf(db', c.key) == ChainAfter(RevisionsOf(db, c.key), c)
    && (forall k :: k in db'.revisions ==> k in db'.rows)
  }

  /** Appending a revision touches one decision's chain and no row. */
  lemma AppendChanges(db: Db, key: Key, revision: Revision)
    requires AppendRevision(db, key, revision).DbOk?
    ensures var db' := AppendRevision(db, key, revision).db;
            && db'.rows == db.rows
            && (forall k :: k != key ==> RevisionsOf(db', k) == RevisionsOf(db, k))
            && RevisionsOf(db', key)
               == (if key.agg == PriorityDecision then RevisionsOf(db, key) + [revision] else RevisionsOf(db, key))
            && (forall k :: k in db'.revisions ==> k in db.revisions || k == key)
  {
  }

  lemma CreateIsLegal(db: Db, rid: nat, p: Proc, id: nat)
    requires p.req.Create? && CanWrite(db, p, id) && ProcOk(db.rows, p) && ChainInv(db)
    requires Transact(db, rid, p, id).Committed?
    ensures Explains(db, Transact(db, rid, p, id).commit, Transact(db, rid, p, id).db)
  {
  }

  lemma GuardedCommitIsOk(db: Db, rid: nat, p: Proc, id: nat)
    requires Guarded(p.req) && CanWrite(db, p, id) && ProcOk(db.rows, p)
    requires Transact(db, rid, p, id).Committed?
    ensures var c := Transact(db, rid, p, id).commit;
            c.next == p.pc.item && c.key == p.req.key && c.req == p.req && CommitOk(db.rows, c)
  {
  }

  lemma GuardedIsLegal(db: Db, rid: nat, p: Proc, id: nat)
    requires Guarded(p.req) && CanWrite(db, p, id) && ProcOk(db.rows, p) && ChainInv(db)
    requires Transact(db, rid, p, id).Committed?
    ensures Explains(db, Transact(db, rid, p, id).commit, Transact(db, rid, p, id).db)
  {
    hide CommitOk, Check, Edited, ValidFields, NewRevision;
    GuardedCommitIsOk(db, rid, p, id);
    var t := Transact(db, rid, p, id);
    var db1 := db.(rows := db.rows[p.req.key := t.commit.next]);
    assert AppendRevision(db1, p.req.key, p.pc.revision) == DbOk(t.db);
    AppendChanges(db1, p.req.key, p.pc.revision);
  }

  lemma DeleteIsLegal(db: Db, rid: nat, p: Proc, id: nat)
    requires p.req.Delete? && CanWrite(db, p, id) && ProcOk(db.rows, p) && ChainInv(db)
    requires Transact(db, rid, p, id).Committed?
    ensures Explains(db, Transact(db, rid, p, id).commit, Transact(db, rid, p, id).db)
  {
  }

  /** A committed transaction is legal, whatever versions the clients send. */
  lemma TransactIsLegal(db: Db, rid: nat, p: Proc, id: nat)
    requires CanWrite(db, p, id) && ProcOk(db.rows, p) && ChainInv(db)
    requires Transact(db, rid, p, id).Committed?
    ensures var t := Transact(db, rid, p, id);
            t.commit.rid == rid && t.commit.req == p.req && Explains(db, t.commit, t.db)
  {
    if p.req.Create? {
      CreateIsLegal(db, rid, p, id);
    } else if p.req.Delete? {
      DeleteIsLegal(db, rid, p, id);
    } else {
      GuardedIsLegal(db, rid, p, id);
    }
  }

  lemma NewAuthorOk(rows: map<Key, Row>, c: Commit)
    requires CommitOk(rows, c) && c.key.agg == PriorityDecision && !c.req.Delete?
    ensures AuthorOk(c.next.preparedBy, RevisionFor(c.req, c.next))
  {
    if c.req.Transition? {
      DecisionEdges(c.snap.status, c.next.status);
    }
  }

  /** A legal commit keeps the chain of its own key. */
  lemma ChainKept(rows: map<Key, Row>, c: Commit, revisions: seq<Revision>)
    requires CommitOk(rows, c) && c.key.agg == PriorityDecision
    requires if c.req.Create? then revisions == [] else ChainOk(rows[c.key], revisions)
    ensures ChainOk(c.next, ChainAfter(revisions, c))
  {
    var after := ChainAfter(revisions, c);
    if !c.req.Delete? {
      NewAuthorOk(rows, c);
      assert forall i :: 0 <= i < |revisions| ==> after[i] == revisions[i];
    }
  }

  lemma ChainInvKept(db: Db, c: Commit, db': Db)
    requires ChainInv(db) && Explains(db, c, db')
    ensures ChainInv(db')
  {
    if c.key.agg == PriorityDecision {
      ChainKept(db.rows, c, RevisionsOf(db, c.key));
    }
    forall k | k in db'.rows && k.agg == PriorityDecision && k != c.key
      ensures ChainOk(db'.rows[k], RevisionsOf(db', k))
    {
      assert ChainOk(db.rows[k], RevisionsOf(db, k));
    }
  }

  // ---------- the invariant of all runs ----------

  ghost predicate Inv(rows0: map<Key, Row>, st: State) {
    TableInv(rows0, st) && ChainInv(st.db) && ProcsInv(st)
  }

  /** The start of a run: tables as the seeding of an empty database, or an earlier run of the
      server, leaves them, and no requests yet.  The audit log is counted from here: entries of
      earlier runs are not part of `audits`. */
  ghost predicate Init(st: State) {
    ChainInv(st.db) && st.audits == [] && st.procs == [] && st.history == []
  }

  ghost predicate Run(ss: seq<State>, steps: seq<Step>) {
    Behavior(ss, steps) && Init(ss[0])
  }

  /** An explained commit keeps replay and chains, and only ages the tables. */
  lemma CommitKeepsTables(rows0: map<Key, Row>, db: Db, history: seq<Commit>, c: Commit, db': Db)
    requires HistoryOk(rows0, history) && db.rows == Replay(rows0, history) && ChainInv(db) && Explains(db, c, db')
    ensures HistoryOk(rows0, history + [c]) && db'.rows == Replay(rows0, history + [c])
    ensures ChainInv(db') && Evolves(db, db')
  {
    hide CommitOk, ChainOk, Older;
    ReplayAppend(rows0, history, c);
    ChainInvKept(db, c, db');
    forall k | k in db.rows ensures k in db'.rows && Older(db.rows[k], db'.rows[k]) {
      CommitAges(db.rows, c, k);
    }
    forall k ensures RevisionsOf(db, k) <= RevisionsOf(db', k) {
      assert k == c.key || RevisionsOf(db', k) == RevisionsOf(db, k);
    }
  }

  lemma DbStep(rows0: map<Key, Row>, st: State, step: Step)
    requires Inv(rows0, st) && Enabled(st, step)
    ensures var st' := Apply(st, step);
            TableInv(rows0, st') && ChainInv(st'.db) && Evolves(st.db, st'.db)
  {
    hide CommitOk, ChainOk, AfterRead, Transact;
    if step.Write? && !step.fault {
      var p := st.procs[step.rid];
      assert ProcOk(st.db.rows, p);
      var t := Transact(st.db, step.rid, p, step.id);
      if t.Committed? {
        TransactIsLegal(st.db, step.rid, p, step.id);
        CommitKeepsTables(rows0, st.db, st.history, t.commit, t.db);
      }
    }
  }

  lemma WriterOk(rows0: map<Key, Row>, st: State, step: Step)
    requires Inv(rows0, st) && Enabled(st, step) && step.Write?
    ensures var st' := Apply(st, step); ProcOk(st'.db.rows, st'.procs[step.rid])
  {
    var p := st.procs[step.rid];
    assert ProcOk(st.db.rows, p);
    if !step.fault && Transact(st.db, step.rid, p, step.id).Committed? {
      TransactIsLegal(st.db, step.rid, p, step.id);
    }
  }

  lemma ReaderOk(rows0: map<Key, Row>, st: State, step: Step)
    requires Inv(rows0, st) && Enabled(st, step) && step.Read?
    ensures var st' := Apply(st, step); ProcOk(st'.db.rows, st'.procs[step.rid])
  {
    hide ChainOk, HistoryOk;
  }

  /** The moving request's new position is consistent with the table. */
  lemma MoverOk(rows0: map<Key, Row>, st: State, step: Step)
    requires Inv(rows0, st) && Enabled(st, step) && !step.Invoke?
    ensures var st' := Apply(st, step); ProcOk(st'.db.rows, st'.procs[step.rid])
  {
    hide AfterRead, AfterValidation, Check, Transact, ChainOk, HistoryOk, Edited, NewItem, ValidFields;
    if step.Write? {
      WriterOk(rows0, st, step);
    } else if step.Read? {
      ReaderOk(rows0, st, step);
    } else {
      assert ProcOk(st.db.rows, st.procs[step.rid]);
    }
  }

  lemma ProcsStep(rows0: map<Key, Row>, st: State, step: Step)
    requires Inv(rows0, st) && Enabled(st, step)
    ensures ProcsInv(Apply(st, step))
  {
    var st' := Apply(st, step);
    DbStep(rows0, st, step);
    forall i | 0 <= i < |st'.procs| ensures ProcOk(st'.db.rows, st'.procs[i]) {
      if step.Invoke? {
        assert i < |st.procs| ==> st'.procs[i] == st.procs[i];
      } else if i == step.rid {
        MoverOk(rows0, st, step);
      } else {
        assert st'.procs[i] == st.procs[i];
        ProcAges(st.db.rows, st'.db.rows, st.procs[i]);
      }
    }
  }

  /** The invariant survives every continuation. */
  lemma {:induction false} InvStays(rows0: map<Key, Row>, ss: seq<State>, steps: seq<Step>, i: nat)
    requires Behavior(ss, steps) && Inv(rows0, ss[0]) && i < |ss|
    ensures Inv(rows0, ss[i])
  {
    hide Apply, Enabled;
    if i > 0 {
      InvStays(rows0, ss, steps, i - 1);
      DbStep(rows0, ss[i - 1], steps[i - 1]);
      ProcsStep(rows0, ss[i - 1], steps[i - 1]);
    }
  }

  /** Every state of every run satisfies the invariant. */
  lemma Always(ss: seq<State>, steps: seq<Step>, i: nat)
    requires Run(ss, steps) && i < |ss|
    ensures Inv(ss[0].db.rows, ss[i])
  {
    InvStays(ss[0].db.rows, ss, steps, i);
  }

  /** Between any two moments of a run rows only age and revision lists only grow. */
  lemma {:induction false} Ages(ss: seq<State>, steps: seq<Step>, i: nat, j: nat)
    requires Run(ss, steps) && i <= j < |ss|
    ensures Evolves(ss[i].db, ss[j].db)
    decreases j
  {
    hide Apply, Enabled, Inv;
    if i < j {
      Ages(ss, steps, i, j - 1);
      Always(ss, steps, j - 1);
      DbStep(ss[0].db.rows, ss[j - 1], steps[j - 1]);
    }
  }
}
