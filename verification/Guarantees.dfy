/** What holds of every run, whatever versions the clients send. */
module Guarantees {
  import opened Domain
  import opened Store
  import opened Protocol
  import opened History
  import opened Invariants
  import opened Accounts
  import opened Ownership

  /** In every reachable state a decision's revisions are exactly versions 1..n, n is the
      row's version, and the last revision's status, evidence and snapshot are the row's. */
  lemma ChainAgrees(ss: seq<State>, steps: seq<Step>, i: nat, k: Key)
    requires Run(ss, steps) && i < |ss| && k in ss[i].db.rows && k.agg == PriorityDecision
    ensures var row, revisions := ss[i].db.rows[k], RevisionsOf(ss[i].db, k);
            && |revisions| == row.version >= 1
            && (forall m :: 0 <= m < |revisions| ==> revisions[m].version == m + 1)
            && revisions[row.version - 1].status == row.status
            && revisions[row.version - 1].evidence == row.fields.evidence
            && Describes(revisions[row.version - 1].snapshot, row)
  {
    Always(ss, steps, i);
    assert ChainOk(ss[i].db.rows[k], RevisionsOf(ss[i].db, k));
  }

  /** A reply reads the row and then, in a second query, its revisions: the list may run ahead of
      the row, but always holds the row's own version in its place. */
  lemma ReplyChainCoversRow(ss: seq<State>, steps: seq<Step>, i: nat, j: nat, k: Key)
    requires Run(ss, steps) && i <= j < |ss| && k in ss[i].db.rows && k.agg == PriorityDecision
    ensures var row, revisions := ss[i].db.rows[k], RevisionsOf(ss[j].db, k);
            && 1 <= row.version <= |revisions|
            && (forall m :: 0 <= m < |revisions| ==> revisions[m].version == m + 1)
            && revisions[row.version - 1].status == row.status
            && revisions[row.version - 1].evidence == row.fields.evidence
            && Describes(revisions[row.version - 1].snapshot, row)
  {
    hide Apply, Enabled, Inv, Behavior;
    Ages(ss, steps, i, j);
    ChainAgrees(ss, steps, i, k);
    ChainAgrees(ss, steps, j, k);
  }

  /** Revision lists are append-only and rows keep their identity, soft deletion included. */
  lemma HistoryIsAppendOnly(ss: seq<State>, steps: seq<Step>, i: nat, j: nat, k: Key)
    requires Run(ss, steps) && i <= j < |ss| && k in ss[i].db.rows
    ensures RevisionsOf(ss[i].db, k) <= RevisionsOf(ss[j].db, k)
    ensures k in ss[j].db.rows
    ensures var earlier, later := ss[i].db.rows[k], ss[j].db.rows[k];
            && earlier.code == later.code && earlier.preparedBy == later.preparedBy
            && earlier.createdAt == later.createdAt
            && earlier.version <= later.version && (earlier.deleted ==> later.deleted)
  {
    Ages(ss, steps, i, j);
  }

  /** No write transaction is ever turned down by the unique (decision, version) index. */
  lemma NoSpuriousIndexFailure(ss: seq<State>, steps: seq<Step>, i: nat)
    requires Run(ss, steps) && i < |steps| && steps[i].Write?
    ensures Transact(ss[i].db, steps[i].rid, ss[i].procs[steps[i].rid], steps[i].id) != Aborted(RevisionExists)
  {
    Always(ss, steps, i);
    var p := ss[i].procs[steps[i].rid];
    assert ProcOk(ss[i].db.rows, p);
    if Guarded(p.req) {
      IndexNeverRejects(ss[i].db, p.req.key, p.req.expected, p.pc.item, p.pc.revision);
    }
  }

  /** Every final revision was written by a reviewer or admin other than the preparer, every
      draft revision by the preparer or an admin; and the preparer never changes. */
  lemma DutiesAreSeparated(ss: seq<State>, steps: seq<Step>, i: nat, j: nat, k: Key, m: nat)
    requires Run(ss, steps) && i <= j < |ss| && k in ss[i].db.rows && k.agg == PriorityDecision
    requires m < |RevisionsOf(ss[j].db, k)|
    ensures var preparer, r := ss[i].db.rows[k].preparedBy, RevisionsOf(ss[j].db, k)[m];
            if r.status == DRAFT then r.actor == preparer || r.role == Admin
            else IsFinal(r.status) && r.actor != preparer && (r.role == Reviewer || r.role == Admin)
  {
    Ages(ss, steps, i, j);
    Always(ss, steps, j);
    assert ChainOk(ss[j].db.rows[k], RevisionsOf(ss[j].db, k));
  }

  /** A row's version is the one it was seeded or created with plus its number of commits. */
  lemma VersionArithmetic(ss: seq<State>, steps: seq<Step>, i: nat, k: Key)
    requires Run(ss, steps) && i < |ss| && k in ss[i].db.rows
    ensures ss[i].db.rows[k].version == BaseVersion(ss[0].db.rows, k) + Writes(ss[i].history, k)
  {
    Always(ss, steps, i);
    VersionCountsCommits(ss[0].db.rows, ss[i].history, k);
  }

  /** Among all requests with the same row and expected version at most one commits, whatever
      their audit or their reply then comes to. */
  lemma SingleWinner(ss: seq<State>, steps: seq<Step>, i: nat, r: nat, q: nat)
    requires Run(ss, steps) && i < |ss| && r < |ss[i].procs| && q < |ss[i].procs|
    requires Guarded(ss[i].procs[r].req) && Guarded(ss[i].procs[q].req)
    requires ss[i].procs[r].req.key == ss[i].procs[q].req.key
    requires ss[i].procs[r].req.expected == ss[i].procs[q].req.expected
    requires r in Rids(ss[i].history) && q in Rids(ss[i].history)
    ensures r == q
  {
    Always(ss, steps, i);
    OwnedAlways(ss, steps, i);
    hide Apply, Enabled, Replay, HistoryOk, ChainInv, ProcsInv;
    var history := ss[i].history;
    var a :| 0 <= a < |history| && history[a].rid == r;
    var b :| 0 <= b < |history| && history[b].rid == q;
    OneCommitPerVersion(ss[0].db.rows, history, a, b);
  }

  /** A request that has been rejected contributed no row, revision or audit change at any of its steps. */
  lemma RejectionsWriteNothing(ss: seq<State>, steps: seq<Step>, i: nat, m: nat)
    requires Run(ss, steps) && m < i < |ss| && !steps[m].Invoke? && steps[m].rid < |ss[i].procs|
    requires var pc := ss[i].procs[steps[m].rid].pc; pc.Done? && pc.outcome.Failed? && IsRejection(pc.outcome.error)
    ensures ss[m + 1].db == ss[m].db && ss[m + 1].audits == ss[m].audits && ss[m + 1].history == ss[m].history
  {
    OwnedAlways(ss, steps, m);
    OwnedAlways(ss, steps, i);
    LogsGrow(ss, steps, m + 1, i);
    RidsGrow(ss[m + 1].history, ss[i].history);
    WritersOwn(ss[m], steps[m]);
  }

  /** A step that changes a table or a log belongs to a request that owns a commit. */
  lemma WritersOwn(st: State, step: Step)
    requires CommitsOwned(st) && Enabled(st, step) && !step.Invoke?
    ensures var st' := Apply(st, step);
            || step.rid in Rids(st'.history)
            || (st'.db == st.db && st'.audits == st.audits && st'.history == st.history)
  {
    if Commits(st, step) {
      CommitShape(st, step);
      RidsAppend(st.history, CommitOf(st, step));
    } else if !step.Log? {
      QuietShape(st, step);
    }
  }

  lemma RidsGrow(history: seq<Commit>, later: seq<Commit>)
    requires history <= later
    ensures Rids(history) <= Rids(later)
  {
    forall r | r in Rids(history) ensures r in Rids(later) {
      var j :| 0 <= j < |history| && history[j].rid == r;
      assert later[j].rid == r;
    }
  }

  /** A successful update or transition committed, and answers with a version above the expected one. */
  lemma SuccessReplies(ss: seq<State>, steps: seq<Step>, i: nat, r: nat)
    requires Run(ss, steps) && i < |ss| && r < |ss[i].procs| && Guarded(ss[i].procs[r].req)
    requires ss[i].procs[r].pc.Done? && ss[i].procs[r].pc.outcome.Ok?
    ensures ss[i].procs[r].pc.outcome.row.version >= ss[i].procs[r].req.expected + 1
    ensures r in Rids(ss[i].history)
  {
    Always(ss, steps, i);
    OwnedAlways(ss, steps, i);
    assert ProcOk(ss[i].db.rows, ss[i].procs[r]);
  }

  /** A transition or deletion answered with an audit failure is in the table all the same. */
  lemma AuditFailureKeepsCommit(ss: seq<State>, steps: seq<Step>, i: nat, r: nat)
    requires Run(ss, steps) && i < |ss| && r < |ss[i].procs|
    requires ss[i].procs[r].pc == Done(Failed(AuditFault))
    ensures r in Rids(ss[i].history)
  {
    OwnedAlways(ss, steps, i);
  }

  /** Every bucket of the recount is its size at the start plus the ledger of the commits. */
  lemma StatusCountsConserved(ss: seq<State>, steps: seq<Step>, i: nat, agg: Aggregate, status: string)
    requires Run(ss, steps) && i < |ss|
    ensures |Live(ss[i].db.rows, agg, status)|
            == |Live(ss[0].db.rows, agg, status)| + Ledger(ss[i].history, agg, status)
  {
    Always(ss, steps, i);
    LedgerIsRecount(ss[0].db.rows, ss[i].history, agg, status);
  }

  /** What the audit log says of a status, together with the commits it does not mention,
      is what the committed transitions claimed, in whatever order entries land. */
  lemma AuditLogComplete(ss: seq<State>, steps: seq<Step>, i: nat, k: Key, status: string)
    requires Run(ss, steps) && i < |ss|
    ensures AuditFlow(ss[i].audits, k, status) + Owed(ss[i].history, AuditRids(ss[i].audits), k, status)
            == Owed(ss[i].history, {}, k, status)
    ensures forall a :: a in ss[i].audits ==> CalledFor(ss[i].history, a)
    ensures forall a, b :: 0 <= a < b < |ss[i].audits| ==> ss[i].audits[a].rid != ss[i].audits[b].rid
  {
    OwnedAlways(ss, steps, i);
  }

  // ---------- the status of a decision ----------

  /** The step commits a transition of the row. */
  predicate MovesAt(st: State, step: Step, k: Key) {
    Enabled(st, step) && Commits(st, step) && CommitOf(st, step).key == k && CommitOf(st, step).req.Transition?
  }

  /** The step commits an update of the row. */
  predicate EditsAt(st: State, step: Step, k: Key) {
    Enabled(st, step) && Commits(st, step) && CommitOf(st, step).key == k && CommitOf(st, step).req.Update?
  }

  lemma StatusStep(rows0: map<Key, Row>, st: State, step: Step, k: Key)
    requires Inv(rows0, st) && Enabled(st, step) && k in st.db.rows && k.agg == PriorityDecision
    ensures k in Apply(st, step).db.rows
    ensures var status' := Apply(st, step).db.rows[k].status;
            if MovesAt(st, step, k) then IsFinal(status')
            else if EditsAt(st, step, k) then status' == DRAFT
            else status' == st.db.rows[k].status
  {
    if Commits(st, step) {
      var c := CommitOf(st, step);
      assert ProcOk(st.db.rows, st.procs[step.rid]);
      TransactIsLegal(st.db, step.rid, st.procs[step.rid], step.id);
      CommitStatus(st.db.rows, c, k);
    } else if !(step.Log? && !step.fault) {
      QuietShape(st, step);
    }
  }

  lemma CommitStatus(rows: map<Key, Row>, c: Commit, k: Key)
    requires CommitOk(rows, c) && k in rows && k.agg == PriorityDecision
    ensures var status' := rows[c.key := c.next][k].status;
            if c.key == k && c.req.Transition? then IsFinal(status')
            else if c.key == k && c.req.Update? then status' == DRAFT
            else status' == rows[k].status
  {
    if c.key == k && c.req.Transition? {
      DecisionEdges(c.snap.status, c.next.status);
    }
  }

  /** The transition committed at step `n` is followed by no update before moment `j`. */
  ghost predicate MoveStands(ss: seq<State>, steps: seq<Step>, n: nat, j: nat, k: Key) {
    && n < j <= |steps| < |ss| && MovesAt(ss[n], steps[n], k)
    && forall m :: n < m < j ==> !EditsAt(ss[m], steps[m], k)
  }

  /** Some transition committed from moment `i` on stands at moment `j`. */
  ghost predicate Finalised(ss: seq<State>, steps: seq<Step>, i: nat, j: nat, k: Key) {
    exists n: nat :: i <= n && MoveStands(ss, steps, n, j, k)
  }

  /** A decision that is a draft at one moment is a draft or final ever after, and final exactly
      if a transition was committed on it since, with no update after it. */
  lemma {:induction false} FinalIffMoveStands(ss: seq<State>, steps: seq<Step>, i: nat, j: nat, k: Key)
    requires Run(ss, steps) && i <= j < |ss|
    requires k in ss[i].db.rows && k.agg == PriorityDecision && ss[i].db.rows[k].status == DRAFT
    ensures k in ss[j].db.rows
    ensures ss[j].db.rows[k].status == DRAFT || IsFinal(ss[j].db.rows[k].status)
    ensures IsFinal(ss[j].db.rows[k].status) <==> Finalised(ss, steps, i, j, k)
    decreases j
  {
    hide Apply, Enabled, Inv, MovesAt, EditsAt;
    DecisionEdges(DRAFT, DRAFT);
    if i < j {
      FinalIffMoveStands(ss, steps, i, j - 1, k);
      Always(ss, steps, j - 1);
      StatusStep(ss[0].db.rows, ss[j - 1], steps[j - 1], k);
      FinalisedStep(ss, steps, i, j - 1, k);
    }
  }

  lemma FinalisedStep(ss: seq<State>, steps: seq<Step>, i: nat, j: nat, k: Key)
    requires i <= j < |steps| < |ss|
    ensures Finalised(ss, steps, i, j + 1, k)
            <==> MovesAt(ss[j], steps[j], k) || (!EditsAt(ss[j], steps[j], k) && Finalised(ss, steps, i, j, k))
  {
    hide Enabled, Commits, CommitOf;
    if MovesAt(ss[j], steps[j], k) {
      assert MoveStands(ss, steps, j, j + 1, k);
    } else {
      if Finalised(ss, steps, i, j + 1, k) {
        var n: nat :| i <= n && MoveStands(ss, steps, n, j + 1, k);
        assert n < j && !EditsAt(ss[j], steps[j], k);
        assert MoveStands(ss, steps, n, j, k);
      }
      if !EditsAt(ss[j], steps[j], k) && Finalised(ss, steps, i, j, k) {
        var n: nat :| i <= n && MoveStands(ss, steps, n, j, k);
        assert MoveStands(ss, steps, n, j + 1, k);
      }
    }
  }
}
