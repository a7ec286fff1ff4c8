/** Which request wrote what: every request commits at most once, every audit entry
    belongs to a commit, and a rejected request wrote nothing. */
module Ownership {
  import opened Domain
  import opened Store
  import opened Protocol
  import opened Invariants
  import opened Accounts

  /** The errors that refuse a request because of what it asks for.  The others report a
      missing row or a storage failure, which can also befall the reply to a committed request. */
  predicate IsRejection(e: Error) {
    e != NotFound && e != StorageFault && e != AuditFault
  }

  predicate NotYetCommitted(pc: Pc) {
    pc.Invoked? || pc.Checked? || pc.CheckedDelete? || (pc.Done? && pc.outcome.Failed? && IsRejection(pc.outcome.error))
  }

  predicate HasCommitted(pc: Pc) {
    pc.Written? || pc.Logged? || (pc.Done? && (!pc.outcome.Failed? || pc.outcome.error == AuditFault))
  }

  ghost function Rids(history: seq<Commit>): set<nat> {
    set j | 0 <= j < |history| :: history[j].rid
  }

  ghost function AuditRids(audits: seq<Audit>): set<nat> {
    set j | 0 <= j < |audits| :: audits[j].rid
  }

  /** Each commit belongs to one request that got past its transaction, and conversely. */
  ghost predicate CommitsOwned(st: State) {
    && DistinctRids(st.history)
    && (forall j :: 0 <= j < |st.history| ==>
          st.history[j].rid < |st.procs| && st.history[j].req == st.procs[st.history[j].rid].req)
    && (forall r :: 0 <= r < |st.procs| && NotYetCommitted(st.procs[r].pc) ==> r !in Rids(st.history))
    && (forall r :: 0 <= r < |st.procs| && HasCommitted(st.procs[r].pc) ==> r in Rids(st.history))
    && (forall r :: 0 <= r < |st.procs| && st.procs[r].pc.Written? ==>
          st.procs[r].pc.commit in st.history && st.procs[r].pc.commit.rid == r)
  }

  ghost predicate CalledFor(history: seq<Commit>, a: Audit) {
    exists c :: c in history && a == AuditOf(c)
  }

  /** Each audit entry is the one its request's commit calls for, and no commit has two. */
  ghost predicate AuditsOwned(st: State) {
    && (forall i :: 0 <= i < |st.audits| ==> CalledFor(st.history, st.audits[i]))
    && (forall i, j :: 0 <= i < j < |st.audits| ==> st.audits[i].rid != st.audits[j].rid)
    && (forall r :: 0 <= r < |st.procs| && st.procs[r].pc.Written? ==> r !in AuditRids(st.audits))
  }

  ghost predicate FlowKept(st: State) {
    forall k, s :: AuditFlow(st.audits, k, s) + Owed(st.history, AuditRids(st.audits), k, s)
                   == Owed(st.history, {}, k, s)
  }

  lemma RidsAppend(history: seq<Commit>, c: Commit)
    ensures Rids(history + [c]) == Rids(history) + {c.rid}
  {
    assert (history + [c])[|history|] == c;
    forall r | r in Rids(history) + {c.rid} ensures r in Rids(history + [c]) {
      if r != c.rid {
        var j :| 0 <= j < |history| && history[j].rid == r;
        assert (history + [c])[j].rid == r;
      }
    }
  }

  lemma AuditRidsAppend(audits: seq<Audit>, a: Audit)
    ensures AuditRids(audits + [a]) == AuditRids(audits) + {a.rid}
  {
    assert (audits + [a])[|audits|] == a;
    forall r | r in AuditRids(audits) + {a.rid} ensures r in AuditRids(audits + [a]) {
      if r != a.rid {
        var j :| 0 <= j < |audits| && audits[j].rid == r;
        assert (audits + [a])[j].rid == r;
      }
    }
  }

  // ---------- the three effects a step can have on history, audits and requests ----------

  /** Request `rid` moves to `pc`. */
  ghost predicate Moves1(st: State, st': State, rid: nat, pc: Pc) {
    rid < |st.procs| && st'.procs == st.procs[rid := st.procs[rid].(pc := pc)]
  }

  /** A write transaction commits `c`. */
  ghost predicate CommitStep(st: State, st': State, c: Commit) {
    && Moves1(st, st', c.rid, Written(c)) && NotYetCommitted(st.procs[c.rid].pc)
    && c.req == st.procs[c.rid].req
    && st'.history == st.history + [c] && st'.audits == st.audits
  }

  /** The audit entry of the written commit `c` is appended. */
  ghost predicate AuditStep(st: State, st': State, c: Commit, rid: nat, pc: Pc) {
    && Moves1(st, st', rid, pc) && HasCommitted(pc) && !pc.Written? && st.procs[rid].pc == Written(c)
    && st'.history == st.history && st'.audits == st.audits + [AuditOf(c)]
  }

  /** A request arrives, or moves without writing anything. */
  ghost predicate QuietStep(st: State, st': State) {
    && st'.history == st.history && st'.audits == st.audits
    && |st.procs| <= |st'.procs|
    && (forall r :: 0 <= r < |st.procs| ==> st'.procs[r].req == st.procs[r].req)
    && (forall r :: 0 <= r < |st.procs| && NotYetCommitted(st'.procs[r].pc) ==> NotYetCommitted(st.procs[r].pc))
    && (forall r :: 0 <= r < |st.procs| && HasCommitted(st'.procs[r].pc) ==> HasCommitted(st.procs[r].pc))
    && (forall r :: 0 <= r < |st.procs| && st'.procs[r].pc.Written? ==> st'.procs[r].pc == st.procs[r].pc)
    && (forall r :: |st.procs| <= r < |st'.procs| ==> st'.procs[r].pc.Invoked?)
  }

  /** Only a write transaction that commits extends the history, by its own commit. */
  predicate Commits(st: State, step: Step)
    requires Enabled(st, step)
  {
    step.Write? && !step.fault && Transact(st.db, step.rid, st.procs[step.rid], step.id).Committed?
  }

  function CommitOf(st: State, step: Step): Commit
    requires Enabled(st, step) && Commits(st, step)
  {
    Transact(st.db, step.rid, st.procs[step.rid], step.id).commit
  }

  lemma CommitShape(st: State, step: Step)
    requires Enabled(st, step) && Commits(st, step)
    ensures CommitStep(st, Apply(st, step), CommitOf(st, step)) && CommitOf(st, step).rid == step.rid
  {
  }

  lemma AuditShape(st: State, step: Step)
    requires Enabled(st, step) && step.Log? && !step.fault
    ensures AuditStep(st, Apply(st, step), st.procs[step.rid].pc.commit, step.rid, Apply(st, step).procs[step.rid].pc)
  {
  }

  /** Neither checks nor transactions report an audit failure. */
  lemma NoAuditFault(st: State, step: Step)
    requires Enabled(st, step)
    ensures step.Read? && !st.procs[step.rid].req.Create?
            ==> forall row :: Check(st.procs[step.rid].req, row) != Some(AuditFault)
    ensures step.Write? ==> Transact(st.db, step.rid, st.procs[step.rid], step.id) != Aborted(AuditFault)
  {
  }

  lemma QuietShape(st: State, step: Step)
    requires Enabled(st, step) && !Commits(st, step) && !(step.Log? && !step.fault)
    ensures QuietStep(st, Apply(st, step))
    ensures Apply(st, step).db == st.db
  {
    hide Check, Edited, NewItem, RevisionFor, ValidFields, Transact;
    NoAuditFault(st, step);
  }

  // ---------- preservation ----------

  lemma CommitKeepsOwners(st: State, st': State, c: Commit)
    requires CommitsOwned(st) && AuditsOwned(st) && CommitStep(st, st', c)
    ensures CommitsOwned(st') && AuditsOwned(st')
  {
    RidsAppend(st.history, c);
    forall j | 0 <= j < |st.history| ensures st.history[j].rid != c.rid {
      assert st.history[j].rid in Rids(st.history);
    }
    forall a | CalledFor(st.history, a) ensures CalledFor(st'.history, a) && a.rid in Rids(st.history) {
      var d :| d in st.history && a == AuditOf(d);
      assert d in st'.history;
    }
  }

  lemma AuditKeepsCommits(st: State, st': State, c: Commit, rid: nat, pc: Pc)
    requires CommitsOwned(st) && AuditStep(st, st', c, rid, pc)
    ensures CommitsOwned(st')
  {
  }

  lemma AuditKeepsOwners(st: State, st': State, c: Commit, rid: nat, pc: Pc)
    requires CommitsOwned(st) && AuditsOwned(st) && AuditStep(st, st', c, rid, pc)
    ensures CommitsOwned(st') && AuditsOwned(st')
  {
    hide DistinctRids, NotYetCommitted, HasCommitted, Rids;
    AuditKeepsCommits(st, st', c, rid, pc);
    AuditRidsAppend(st.audits, AuditOf(c));
    forall i | 0 <= i < |st.audits| ensures st.audits[i].rid != c.rid {
      assert st.audits[i].rid in AuditRids(st.audits);
    }
    assert CalledFor(st'.history, AuditOf(c));
  }

  lemma QuietKeepsOwners(st: State, st': State)
    requires CommitsOwned(st) && AuditsOwned(st) && QuietStep(st, st')
    ensures CommitsOwned(st') && AuditsOwned(st')
  {
    forall r | |st.procs| <= r < |st'.procs| ensures r !in Rids(st'.history) {
    }
  }

  lemma AuditedIsCommitted(st: State)
    requires AuditsOwned(st)
    ensures AuditRids(st.audits) <= Rids(st.history)
  {
    forall r | r in AuditRids(st.audits) ensures r in Rids(st.history) {
      var i :| 0 <= i < |st.audits| && st.audits[i].rid == r;
      var d :| d in st.history && st.audits[i] == AuditOf(d);
    }
  }

  lemma CommitKeepsFlow(st: State, st': State, c: Commit)
    requires CommitsOwned(st) && AuditsOwned(st) && FlowKept(st) && CommitStep(st, st', c)
    ensures FlowKept(st')
  {
    AuditedIsCommitted(st);
    assert st'.history[..|st.history|] == st.history;
  }

  lemma AuditKeepsFlow(st: State, st': State, c: Commit, rid: nat, pc: Pc)
    requires CommitsOwned(st) && AuditsOwned(st) && FlowKept(st) && AuditStep(st, st', c, rid, pc)
    ensures FlowKept(st')
  {
    var j :| 0 <= j < |st.history| && st.history[j] == c;
    AuditRidsAppend(st.audits, AuditOf(c));
    assert st'.audits[..|st.audits|] == st.audits;
    forall k, s
      ensures AuditFlow(st'.audits, k, s) + Owed(st'.history, AuditRids(st'.audits), k, s)
              == Owed(st'.history, {}, k, s)
    {
      OwedSettles(st.history, AuditRids(st.audits), j, k, s);
    }
  }

  lemma OwnedStep(st: State, step: Step)
    requires CommitsOwned(st) && AuditsOwned(st) && FlowKept(st) && Enabled(st, step)
    ensures CommitsOwned(Apply(st, step)) && AuditsOwned(Apply(st, step)) && FlowKept(Apply(st, step))
  {
    var st' := Apply(st, step);
    if Commits(st, step) {
      CommitShape(st, step);
      CommitKeepsOwners(st, st', CommitOf(st, step));
      CommitKeepsFlow(st, st', CommitOf(st, step));
    } else if step.Log? && !step.fault {
      AuditShape(st, step);
      var c, pc := st.procs[step.rid].pc.commit, st'.procs[step.rid].pc;
      AuditKeepsOwners(st, st', c, step.rid, pc);
      AuditKeepsFlow(st, st', c, step.rid, pc);
    } else {
      QuietShape(st, step);
      QuietKeepsOwners(st, st');
    }
  }

  lemma {:induction false} OwnedAlways(ss: seq<State>, steps: seq<Step>, i: nat)
    requires Run(ss, steps) && i < |ss|
    ensures CommitsOwned(ss[i]) && AuditsOwned(ss[i]) && FlowKept(ss[i])
  {
    hide Apply, Enabled;
    if i > 0 {
      OwnedAlways(ss, steps, i - 1);
      OwnedStep(ss[i - 1], steps[i - 1]);
    } else {
      assert Rids([]) == {} && AuditRids([]) == {};
    }
  }

  /** Histories and audit logs are append-only. */
  lemma {:induction false} LogsGrow(ss: seq<State>, steps: seq<Step>, i: nat, j: nat)
    requires Run(ss, steps) && i <= j < |ss|
    ensures ss[i].history <= ss[j].history && ss[i].audits <= ss[j].audits
    ensures |ss[i].procs| <= |ss[j].procs|
    ensures forall r :: 0 <= r < |ss[i].procs| ==> ss[j].procs[r].req == ss[i].procs[r].req
    decreases j
  {
    if i < j {
      LogsGrow(ss, steps, i, j - 1);
      assert ss[j] == Apply(ss[j - 1], steps[j - 1]);
    }
  }
}
