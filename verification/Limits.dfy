/** Exactly how far the guarantees of `Discipline` reach: a request that expects a version
    ahead of the one the server read can overwrite a final decision, and only such a request
    can; only requests checked before a decision became final can change it afterwards; and a
    deletion can hit a final decision if a commit slips in after its check.  The requests that
    arrive in the runs built here are ones the server receives, from accounts it may have. */
module Limits {
  import opened Domain
  import opened Store
  import opened Protocol
  import opened History
  import opened Invariants
  import opened Accounts
  import opened Ownership
  import opened Guarantees
  import opened Discipline
  import opened Seeding
  import opened Binding

  // ---------- building runs ----------

  lemma Extend(ss: seq<State>, steps: seq<Step>, step: Step)
    requires Behavior(ss, steps) && Enabled(ss[|steps|], step)
    ensures Behavior(ss + [Apply(ss[|steps|], step)], steps + [step])
  {
  }

  lemma Arrives(ss: seq<State>, steps: seq<Step>, req: Request)
    requires Behavior(ss, steps)
    ensures Behavior(ss + [Apply(ss[|steps|], Invoke(req))], steps + [Invoke(req)])
  {
    Extend(ss, steps, Invoke(req));
  }

  /** The steps of a request that runs alone: it arrives, reads and commits. */
  function SoloSteps(n: nat, req: Request, now: int): seq<Step> {
    [Invoke(req), Read(n, now, false), Write(n, 0, false)]
  }

  /** A request arrives, reads its row and passes its checks. */
  lemma Reads(st: State, req: Request, now: int) returns (s1: State, s2: State)
    requires Guarded(req) && Fetch(st.db, req.key).Some? && Check(req, st.db.rows[req.key]) == None
    ensures var n := |st.procs|;
            && s1 == Apply(st, Invoke(req)) && Enabled(s1, Read(n, now, false)) && s2 == Apply(s1, Read(n, now, false))
    ensures var item := Edited(req, st.db.rows[req.key], now);
            && s2.db == st.db
            && s2.procs == st.procs + [Proc(req, Checked(st.db.rows[req.key], item, RevisionFor(req, item)))]
  {
    var n := |st.procs|;
    s1 := Apply(st, Invoke(req));
    s2 := Apply(s1, Read(n, now, false));
  }

  lemma Solo(st: State, req: Request, now: int)
    returns (s1: State, s2: State, s3: State)
    requires ChainInv(st.db) && Guarded(req) && Fetch(st.db, req.key).Some?
    requires st.db.rows[req.key].version == req.expected && Check(req, st.db.rows[req.key]) == None
    ensures var n := |st.procs|;
            && s1 == Apply(st, Invoke(req))
            && Enabled(s1, Read(n, now, false)) && s2 == Apply(s1, Read(n, now, false))
            && Enabled(s2, Write(n, 0, false)) && s3 == Apply(s2, Write(n, 0, false))
            && |s3.procs| == n + 1 && s3.procs[..n] == st.procs
    ensures req.key in s3.db.rows && s3.db.rows[req.key] == Edited(req, st.db.rows[req.key], now)
  {
    s1, s2 := Reads(st, req, now);
    var item := Edited(req, st.db.rows[req.key], now);
    IndexNeverRejects(s2.db, req.key, req.expected, item, RevisionFor(req, item));
    s3 := Apply(s2, Write(|st.procs|, 0, false));
  }

  /** The run was extended by requests that leave those in flight where they were. */
  ghost predicate Extends(ss: seq<State>, steps: seq<Step>, ss': seq<State>, steps': seq<Step>) {
    && Behavior(ss, steps) && Behavior(ss', steps') && ss'[0] == ss[0]
    && ss[|steps|].procs <= ss'[|steps'|].procs
  }

  /** Extends a run by a request that runs alone. */
  lemma ExtendSolo(rows0: map<Key, Row>, ss: seq<State>, steps: seq<Step>, req: Request, now: int)
    returns (ss': seq<State>, steps': seq<Step>)
    requires Behavior(ss, steps) && Inv(rows0, ss[0])
    requires Guarded(req) && Fetch(ss[|steps|].db, req.key).Some?
    requires ss[|steps|].db.rows[req.key].version == req.expected
    requires Check(req, ss[|steps|].db.rows[req.key]) == None
    ensures Extends(ss, steps, ss', steps') && steps' == steps + SoloSteps(|ss[|steps|].procs|, req, now)
    ensures var db, db' := ss[|steps|].db, ss'[|steps'|].db;
            req.key in db'.rows && db'.rows[req.key] == Edited(req, db.rows[req.key], now)
  {
    hide Apply, Enabled, Check, Edited;
    var st, n := ss[|steps|], |ss[|steps|].procs|;
    InvStays(rows0, ss, steps, |steps|);
    var s1, s2, s3 := Solo(st, req, now);
    Extend(ss, steps, Invoke(req));
    Extend(ss + [s1], steps + [Invoke(req)], Read(n, now, false));
    Extend(ss + [s1] + [s2], steps + [Invoke(req)] + [Read(n, now, false)], Write(n, 0, false));
    ss' := ss + [s1] + [s2] + [s3];
    steps' := steps + [Invoke(req)] + [Read(n, now, false)] + [Write(n, 0, false)];
  }

  lemma ReceivedSolo(steps: seq<Step>, n: nat, req: Request, now: int, accounts: set<Account>)
    requires Received(steps, accounts) && Receivable(req) && Account(req.actor, req.role) in accounts
    ensures Received(steps + SoloSteps(n, req, now), accounts)
  {
  }

  /** Business fields that the server accepts. */
  const SOME_FIELDS := Fields("bridge", "", "line", "team", "routine", "low", 0.0, "", 1, "photo", "DF-001")

  lemma SomeFieldsValid(code: string)
    requires !Blank(code)
    ensures ValidFields(PriorityDecision, code, SOME_FIELDS) && FieldsFit(PriorityDecision, SOME_FIELDS)
  {
    assert Trim("bridge") == "bridge" && Trim("line") == "line" && Trim("team") == "team";
    assert Trim("photo") == "photo" && Trim("DF-001") == "DF-001";
  }

  predicate LiveDraft(db: Db, k: Key, version: nat) {
    Fetch(db, k).Some? && k.agg == PriorityDecision && db.rows[k].status == DRAFT
    && db.rows[k].version == version && !Blank(db.rows[k].code)
  }

  /** An account edits a draft until it has a given version. */
  lemma {:induction false} Climb(rows0: map<Key, Row>, st: State, k: Key, low: nat, high: nat, editor: Account)
    returns (ss: seq<State>, steps: seq<Step>)
    requires Inv(rows0, st) && LiveDraft(st.db, k, low) && low <= high && MayEdit(editor, st.db.rows[k].preparedBy)
    ensures Extends([st], [], ss, steps) && Received(steps, {editor})
    ensures LiveDraft(ss[|steps|].db, k, high) && ss[|steps|].db.rows[k].preparedBy == st.db.rows[k].preparedBy
    decreases high
  {
    hide Apply, Enabled, Inv, FieldsFit, ValidFields;
    if low == high {
      ss, steps := [st], [];
    } else {
      ss, steps := Climb(rows0, st, k, low, high - 1, editor);
      var row := ss[|steps|].db.rows[k];
      var req := Update(k, high - 1, SOME_FIELDS, editor.name, editor.role, "edit");
      SomeFieldsValid(row.code);
      VersionsArePositive(rows0, st, k);
      ReceivedSolo(steps, |ss[|steps|].procs|, req, 0, {editor});
      ss, steps := ExtendSolo(rows0, ss, steps, req, 0);
    }
  }

  lemma VersionsArePositive(rows0: map<Key, Row>, st: State, k: Key)
    requires Inv(rows0, st) && k in st.db.rows && k.agg == PriorityDecision
    ensures st.db.rows[k].version >= 1
  {
    assert ChainOk(st.db.rows[k], RevisionsOf(st.db, k));
  }

  /** A reviewer's request to finalise a draft. */
  function Finalisation(k: Key, version: nat, reviewer: Account): Request {
    Transition(k, version, "urgent", "reviewed", reviewer.name, reviewer.role, "review")
  }

  lemma FinalisationPasses(row: Row, k: Key, version: nat, reviewer: Account)
    requires row.status == DRAFT && k.agg == PriorityDecision && MayFinalise(reviewer, row.preparedBy)
    ensures var req := Finalisation(k, version, reviewer);
            && Check(req, row) == None && IsFinal(Edited(req, row, 0).status) && (version >= 1 ==> Receivable(req))
  {
    assert Trim("urgent") == "urgent";
    DecisionEdges(DRAFT, "urgent");
  }

  /** A reviewer other than the preparer finalises the draft. */
  lemma Finalise(rows0: map<Key, Row>, ss: seq<State>, steps: seq<Step>, k: Key, version: nat, reviewer: Account)
    returns (ss': seq<State>, steps': seq<Step>)
    requires Behavior(ss, steps) && Inv(rows0, ss[0]) && LiveDraft(ss[|steps|].db, k, version)
    requires MayFinalise(reviewer, ss[|steps|].db.rows[k].preparedBy)
    ensures Extends(ss, steps, ss', steps')
    ensures steps' == steps + SoloSteps(|ss[|steps|].procs|, Finalisation(k, version, reviewer), 0)
    ensures Receivable(Finalisation(k, version, reviewer))
    ensures var db := ss'[|steps'|].db;
            Fetch(db, k).Some? && IsFinal(db.rows[k].status) && db.rows[k].version == version + 1
  {
    hide Apply, Enabled, Inv, Check;
    var row := ss[|steps|].db.rows[k];
    InvStays(rows0, ss, steps, |steps|);
    VersionsArePositive(rows0, ss[|steps|], k);
    FinalisationPasses(row, k, version, reviewer);
    ss', steps' := ExtendSolo(rows0, ss, steps, Finalisation(k, version, reviewer), 0);
  }

  // ---------- overwriting a final decision ----------

  /** At step `m` request `rid` overwrites a decision that is final. */
  predicate OverwritesAt(ss: seq<State>, steps: seq<Step>, rid: nat, k: Key, m: nat) {
    && m < |steps| && m + 1 < |ss| && steps[m].Write? && steps[m].rid == rid
    && k in ss[m].db.rows && IsFinal(ss[m].db.rows[k].status)
    && k in ss[m + 1].db.rows && ss[m + 1].db.rows[k].version != ss[m].db.rows[k].version
  }

  /** In some continuation, in which only the given accounts send requests, it does so. */
  ghost predicate CanOverwriteFinal(st: State, rid: nat, k: Key, accounts: set<Account>) {
    exists ss, steps, m :: Behavior(ss, steps) && ss[0] == st && Received(steps, accounts)
                           && OverwritesAt(ss, steps, rid, k, m)
  }

  lemma {:induction false} CheckedStays(ss: seq<State>, steps: seq<Step>, rid: nat, i: nat)
    requires Behavior(ss, steps) && i < |ss| && rid < |ss[0].procs| && ss[0].procs[rid].pc.Checked?
    ensures rid < |ss[i].procs|
    ensures ss[i].procs[rid] == ss[0].procs[rid]
            || ss[i].procs[rid].pc.Written? || ss[i].procs[rid].pc.Logged? || ss[i].procs[rid].pc.Done?
  {
    if i > 0 {
      CheckedStays(ss, steps, rid, i - 1);
      assert ss[i] == Apply(ss[i - 1], steps[i - 1]);
    }
  }

  /** A write that changes the version of a final decision expected more than it had read. */
  lemma StaleIsAhead(rows0: map<Key, Row>, st: State, step: Step)
    requires Inv(rows0, st) && Enabled(st, step) && step.Write? && Guarded(st.procs[step.rid].req)
    requires var k := st.procs[step.rid].req.key;
             && k in st.db.rows && k.agg == PriorityDecision && IsFinal(st.db.rows[k].status)
             && k in Apply(st, step).db.rows && Apply(st, step).db.rows[k].version != st.db.rows[k].version
    ensures st.procs[step.rid].req.expected > st.procs[step.rid].pc.snap.version
  {
    hide Apply, Check, Edited, CommitOk, UpdateTx, Merge, RevisionFor;
    var p := st.procs[step.rid];
    VersionChangeIsGuarded(rows0, st, step, p.req.key);
    assert ProcOk(st.db.rows, p);
    TransactIsLegal(st.db, step.rid, p, step.id);
    var c := CommitOf(st, step);
    FreshIffNotAhead(st.db.rows, c);
    if Fresh(c) {
      FreshWriteFindsDraft(st.db.rows, c);
    }
  }

  lemma OverwriteNeedsAhead(rows0: map<Key, Row>, ss: seq<State>, steps: seq<Step>, rid: nat, m: nat)
    requires Behavior(ss, steps) && Inv(rows0, ss[0])
    requires rid < |ss[0].procs| && ss[0].procs[rid].pc.Checked? && Guarded(ss[0].procs[rid].req)
    requires ss[0].procs[rid].req.key.agg == PriorityDecision
    requires OverwritesAt(ss, steps, rid, ss[0].procs[rid].req.key, m)
    ensures ss[0].procs[rid].req.expected > ss[0].procs[rid].pc.snap.version
  {
    hide Inv, Apply;
    CheckedStays(ss, steps, rid, m);
    InvStays(rows0, ss, steps, m);
    StaleIsAhead(rows0, ss[m], steps[m]);
  }

  /** A checked request whose expected version is the row's commits. */
  lemma MatchingWriteLands(rows0: map<Key, Row>, st: State, rid: nat)
    requires Inv(rows0, st) && rid < |st.procs| && st.procs[rid].pc.Checked? && Guarded(st.procs[rid].req)
    requires Fetch(st.db, st.procs[rid].req.key).Some?
    requires st.db.rows[st.procs[rid].req.key].version == st.procs[rid].req.expected
    ensures Enabled(st, Write(rid, 0, false))
    ensures var k, st' := st.procs[rid].req.key, Apply(st, Write(rid, 0, false));
            k in st'.db.rows && st'.db.rows[k].version == st.procs[rid].req.expected + 1
  {
    var p := st.procs[rid];
    assert ProcOk(st.db.rows, p);
    IndexNeverRejects(st.db, p.req.key, p.req.expected, p.pc.item, p.pc.revision);
  }

  lemma AheadOverwrites(rows0: map<Key, Row>, st: State, rid: nat, editor: Account, reviewer: Account)
    returns (ss: seq<State>, steps: seq<Step>)
    requires Inv(rows0, st) && rid < |st.procs| && st.procs[rid].pc.Checked? && Guarded(st.procs[rid].req)
    requires LiveDraft(st.db, st.procs[rid].req.key, st.procs[rid].pc.snap.version)
    requires st.procs[rid].req.expected > st.procs[rid].pc.snap.version
    requires var preparer := st.db.rows[st.procs[rid].req.key].preparedBy;
             MayEdit(editor, preparer) && MayFinalise(reviewer, preparer)
    ensures Behavior(ss, steps) && ss[0] == st && |steps| > 0 && Received(steps, {editor, reviewer})
    ensures OverwritesAt(ss, steps, rid, st.procs[rid].req.key, |steps| - 1)
  {
    hide Apply, Enabled, Inv, MayEdit, MayFinalise, Receivable;
    var k, v := st.procs[rid].req.key, st.procs[rid].req.expected;
    ss, steps := Climb(rows0, st, k, st.procs[rid].pc.snap.version, v - 1, editor);
    ss, steps := Finalise(rows0, ss, steps, k, v - 1, reviewer);
    ss, steps := Land(rows0, ss, steps, rid);
  }

  /** Extends a run by the commit of a checked request whose expected version is the row's. */
  lemma Land(rows0: map<Key, Row>, ss: seq<State>, steps: seq<Step>, rid: nat)
    returns (ss': seq<State>, steps': seq<Step>)
    requires Behavior(ss, steps) && Inv(rows0, ss[0])
    requires rid < |ss[|steps|].procs| && ss[|steps|].procs[rid].pc.Checked? && Guarded(ss[|steps|].procs[rid].req)
    requires var st := ss[|steps|];
             && Fetch(st.db, st.procs[rid].req.key).Some?
             && st.db.rows[st.procs[rid].req.key].version == st.procs[rid].req.expected
    ensures Behavior(ss', steps') && ss'[0] == ss[0] && steps' == steps + [Write(rid, 0, false)]
    ensures ss'[|steps|] == ss[|steps|]
    ensures var k := ss[|steps|].procs[rid].req.key;
            k in ss'[|steps'|].db.rows && ss'[|steps'|].db.rows[k].version == ss[|steps|].procs[rid].req.expected + 1
  {
    hide Apply, Enabled, Inv;
    var last := ss[|steps|];
    InvStays(rows0, ss, steps, |steps|);
    MatchingWriteLands(rows0, last, rid);
    Extend(ss, steps, Write(rid, 0, false));
    ss', steps' := ss + [Apply(last, Write(rid, 0, false))], steps + [Write(rid, 0, false)];
  }

  /** A request that has just read and passed its checks on a draft decision can go on to
      overwrite that decision once final exactly if the version it expects is ahead of the
      version it read - provided there is someone to edit the draft and someone to finalise it. */
  lemma OverwritesFinalIffAhead(rows0: map<Key, Row>, st: State, rid: nat, editor: Account, reviewer: Account)
    requires Inv(rows0, st) && rid < |st.procs| && st.procs[rid].pc.Checked? && Guarded(st.procs[rid].req)
    requires LiveDraft(st.db, st.procs[rid].req.key, st.procs[rid].pc.snap.version)
    requires var preparer := st.db.rows[st.procs[rid].req.key].preparedBy;
             MayEdit(editor, preparer) && MayFinalise(reviewer, preparer)
    ensures CanOverwriteFinal(st, rid, st.procs[rid].req.key, {editor, reviewer})
            <==> st.procs[rid].req.expected > st.procs[rid].pc.snap.version
  {
    hide Apply, Enabled, Inv, Received;
    var k := st.procs[rid].req.key;
    if st.procs[rid].req.expected > st.procs[rid].pc.snap.version {
      var ss, steps := AheadOverwrites(rows0, st, rid, editor, reviewer);
    } else if CanOverwriteFinal(st, rid, k, {editor, reviewer}) {
      var ss, steps, m :| Behavior(ss, steps) && ss[0] == st && Received(steps, {editor, reviewer})
                          && OverwritesAt(ss, steps, rid, k, m);
      OverwriteNeedsAhead(rows0, ss, steps, rid, m);
    }
  }

  /** Only a commit of an update or transition of a row changes its version. */
  lemma VersionChangeIsGuarded(rows0: map<Key, Row>, st: State, step: Step, k: Key)
    requires Inv(rows0, st) && Enabled(st, step) && step.Write? && k in st.db.rows
    requires k in Apply(st, step).db.rows && Apply(st, step).db.rows[k].version != st.db.rows[k].version
    ensures Commits(st, step) && Guarded(st.procs[step.rid].req) && st.procs[step.rid].req.key == k
    ensures Fetch(st.db, k).Some?
  {
    hide Transact, Check, Edited, NewItem, ValidFields;
    var p := st.procs[step.rid];
    assert ProcOk(st.db.rows, p);
    if Commits(st, step) {
      TransactIsLegal(st.db, step.rid, p, step.id);
    }
  }

  /** The overwriting step does not have the effect of its request executed in one go, which is refused. */
  lemma OverwriteIsNotAtomic(rows0: map<Key, Row>, ss: seq<State>, steps: seq<Step>, rid: nat, k: Key, m: nat)
    requires Behavior(ss, steps) && Inv(rows0, ss[0])
    requires OverwritesAt(ss, steps, rid, k, m) && k.agg == PriorityDecision
    ensures Commits(ss[m], steps[m]) && !AtomicEffect(ss[m], steps[m], ss[m + 1])
    ensures AtomicOp(ss[m].db, ss[m].procs[rid].req, steps[m].id, Stamp(ss[m].procs[rid])).DbErr?
  {
    hide Apply, Transact, AtomicOp, ProcOk;
    InvStays(rows0, ss, steps, m);
    VersionChangeIsGuarded(rows0, ss[m], steps[m], k);
    FinalRefusesWrites(ss[m].db, ss[m].procs[rid].req, steps[m].id, Stamp(ss[m].procs[rid]));
  }

  /** So no run in which a final decision is overwritten is serializable in commit order. */
  lemma OverwriteIsNotSerial(ss: seq<State>, steps: seq<Step>, rid: nat, k: Key, m: nat)
    requires Run(ss, steps) && OverwritesAt(ss, steps, rid, k, m) && k.agg == PriorityDecision
    ensures exists i :: 0 <= i <= m + 1 && !SerialAt(ss, steps, i)
  {
    hide Apply, Enabled, SerialAt, Undisturbed, AtomicEffect;
    Always(ss, steps, 0);
    OverwriteIsNotAtomic(ss[0].db.rows, ss, steps, rid, k, m);
    StepIsAtomicIffUndisturbed(ss, steps, m);
    SerializableIffUndisturbed(ss, steps, m + 1);
  }

  // ---------- a run of a freshly seeded server ----------

  /** A reviewer asks for a transition of a decision at version 1, but expects version 2. */
  function EarlyBird(k: Key): Request {
    Transition(k, 2, "observe", "reviewed", "reviewer", Reviewer, "early")
  }

  /** A concrete run of a freshly seeded server.  The request of the reviewer passes its checks on
      the shipped draft, the admin finalises the draft, and the reviewer's transaction overwrites
      the final decision. */
  lemma AFinalDecisionIsOverwritten(keys: seq<Key>, texts: (Aggregate, nat) -> Fields, now: int)
    returns (ss: seq<State>, steps: seq<Step>)
    requires FreshKeys(keys)
    ensures Run(ss, steps) && ss[0].db == ShippedDb(keys, texts, now) && |keys| == 12
    ensures steps == [Invoke(EarlyBird(keys[9])), Read(0, now, false),
                      Invoke(Finalisation(keys[9], 1, Account("admin", Admin))), Read(1, 0, false), Write(1, 0, false),
                      Write(0, 0, false)]
    ensures Received(steps, SEED_ACCOUNTS) && OverwritesAt(ss, steps, 0, keys[9], 5)
  {
    hide Apply, Enabled, Inv, ShippedDb, FreshKeys, MayFinalise, Check, Edited;
    var admin := Account("admin", Admin);
    ss, steps := EarlyBirdReads(keys, texts, now);
    var k, rows0 := keys[9], ss[0].db.rows;
    AdminMayFinalise(admin);
    ss, steps := Finalise(rows0, ss, steps, k, 1, admin);
    ss, steps := Land(rows0, ss, steps, 0);
  }

  lemma AdminMayFinalise(admin: Account)
    requires admin == Account("admin", Admin)
    ensures MayFinalise(admin, SEED_PREPARER)
  {
    assert admin.name[0] == 'a' && SEED_PREPARER[0] == 'o';
  }

  lemma EarlyBirdReads(keys: seq<Key>, texts: (Aggregate, nat) -> Fields, now: int)
    returns (ss: seq<State>, steps: seq<Step>)
    requires FreshKeys(keys)
    ensures Run(ss, steps) && ss[0].db == ShippedDb(keys, texts, now) && Inv(ss[0].db.rows, ss[0]) && |keys| == 12
    ensures steps == [Invoke(EarlyBird(keys[9])), Read(0, now, false)] && |ss[2].procs| == 1
    ensures ss[2].procs[0].req == EarlyBird(keys[9]) && ss[2].procs[0].pc.Checked?
    ensures LiveDraft(ss[2].db, keys[9], 1) && ss[2].db.rows[keys[9]].preparedBy == SEED_PREPARER
  {
    hide Apply, Enabled, ShippedDb, FreshKeys, Edited, Check, ChainInv;
    ShippedAt(keys, 3, 0, texts, now);
    var k, row := keys[9], ShippedRow(PriorityDecision, 0, texts, now);
    var s0 := State(ShippedDb(keys, texts, now), [], [], []);
    EarlyBirdPasses(k, row);
    var s1, s2 := Reads(s0, EarlyBird(k), now);
    Arrives([s0], [], EarlyBird(k));
    Extend([s0] + [s1], [] + [Invoke(EarlyBird(k))], Read(0, now, false));
    ss, steps := [s0] + [s1] + [s2], [] + [Invoke(EarlyBird(k))] + [Read(0, now, false)];
    Always(ss, steps, 0);
  }

  lemma EarlyBirdPasses(k: Key, row: Row)
    requires k.agg == PriorityDecision && row.status == DRAFT && row.preparedBy == SEED_PREPARER && row.code == "PD-001"
    ensures Check(EarlyBird(k), row) == None && !Blank(row.code)
  {
    assert SEED_PREPARER[0] == 'o' && EarlyBird(k).actor[0] == 'r';
    assert Trim("observe") == "observe" && Trim("PD-001") == "PD-001";
    DecisionEdges(DRAFT, "observe");
  }

  // ---------- what can still change a final decision ----------

  /** Request `r` has passed its checks on row `k` and only its transaction is to come: a deletion,
      or an update or transition that expects the row's present version. */
  predicate Threatens(st: State, r: nat, k: Key) {
    && r < |st.procs| && !st.procs[r].req.Create? && st.procs[r].req.key == k && Fetch(st.db, k).Some?
    && (|| st.procs[r].pc.CheckedDelete?
        || (st.procs[r].pc.Checked? && Guarded(st.procs[r].req) && st.procs[r].req.expected == st.db.rows[k].version))
  }

  predicate Threatened(st: State, k: Key) {
    exists r :: 0 <= r < |st.procs| && Threatens(st, r, k)
  }

  /** Row `k` and its revisions are the same. */
  predicate Untouched(db: Db, db': Db, k: Key) {
    && (k in db.rows <==> k in db'.rows) && (k in db.rows ==> db.rows[k] == db'.rows[k])
    && RevisionsOf(db', k) == RevisionsOf(db, k)
  }

  predicate FinalIn(db: Db, k: Key) {
    k in db.rows && k.agg == PriorityDecision && IsFinal(db.rows[k].status)
  }

  /** Only a commit of a threatening request touches a final decision. */
  lemma OnlyThreatsTouch(rows0: map<Key, Row>, st: State, step: Step, k: Key)
    requires Inv(rows0, st) && Enabled(st, step) && FinalIn(st.db, k) && !Threatened(st, k)
    ensures Untouched(st.db, Apply(st, step).db, k)
  {
    hide Transact, Check, Edited, NewItem, ValidFields;
    if Commits(st, step) {
      var p := st.procs[step.rid];
      assert ProcOk(st.db.rows, p);
      TransactIsLegal(st.db, step.rid, p, step.id);
      assert !Threatens(st, step.rid, k);
    } else if !(step.Log? && !step.fault) {
      QuietShape(st, step);
    }
  }

  /** No request passes its checks on a final decision. */
  lemma FinalRefusesReaders(req: Request, row: Row)
    requires !req.Create? && req.key.agg == PriorityDecision && IsFinal(row.status)
    ensures Check(req, row).Some?
  {
    DecisionEdges(DRAFT, row.status);
    if req.Transition? {
      DecisionEdges(row.status, Trim(req.target));
    }
  }

  lemma MoverIsNoThreat(st: State, step: Step, k: Key)
    requires Enabled(st, step) && !step.Invoke? && FinalIn(st.db, k) && !Threatens(st, step.rid, k)
    requires Untouched(st.db, Apply(st, step).db, k)
    ensures !Threatens(Apply(st, step), step.rid, k)
  {
    hide Transact, Check, Edited, NewItem, ValidFields, RevisionsOf;
    var req := st.procs[step.rid].req;
    if step.Read? && !req.Create? && req.key == k {
      FinalRefusesReaders(req, st.db.rows[k]);
    }
  }

  lemma NoNewThreats(rows0: map<Key, Row>, st: State, step: Step, k: Key)
    requires Inv(rows0, st) && Enabled(st, step) && FinalIn(st.db, k) && !Threatened(st, k)
    ensures !Threatened(Apply(st, step), k)
  {
    OnlyThreatsTouch(rows0, st, step, k);
    hide Inv, Transact, AfterRead, AfterValidation, RevisionsOf;
    var st' := Apply(st, step);
    forall r | 0 <= r < |st'.procs| ensures !Threatens(st', r, k) {
      assert r < |st.procs| ==> !Threatens(st, r, k);
      if !step.Invoke? && r == step.rid {
        MoverIsNoThreat(st, step, k);
      }
    }
  }

  /** In any run, whatever versions clients send, a final decision that no request threatens keeps
      its whole row, deletion mark included, and its revisions for ever. */
  lemma {:induction false} UnthreatenedFinalStands(rows0: map<Key, Row>, ss: seq<State>, steps: seq<Step>,
                                                   i: nat, j: nat, k: Key)
    requires Behavior(ss, steps) && Inv(rows0, ss[0]) && i <= j < |ss|
    requires FinalIn(ss[i].db, k) && !Threatened(ss[i], k)
    ensures Untouched(ss[i].db, ss[j].db, k) && !Threatened(ss[j], k)
    decreases j
  {
    hide Apply, Enabled, Inv, Threatened;
    if i < j {
      UnthreatenedFinalStands(rows0, ss, steps, i, j - 1, k);
      InvStays(rows0, ss, steps, j - 1);
      OnlyThreatsTouch(rows0, ss[j - 1], steps[j - 1], k);
      NoNewThreats(rows0, ss[j - 1], steps[j - 1], k);
    }
  }

  /** In particular decisions that are final when the server starts, as two of the shipped ones
      are, never change at all. */
  lemma FinalFromStartStands(ss: seq<State>, steps: seq<Step>, i: nat, k: Key)
    requires Run(ss, steps) && i < |ss| && FinalIn(ss[0].db, k)
    ensures Untouched(ss[0].db, ss[i].db, k)
  {
    Always(ss, steps, 0);
    UnthreatenedFinalStands(ss[0].db.rows, ss, steps, 0, i, k);
  }

  ghost predicate CanTouch(st: State, k: Key) {
    exists ss: seq<State>, steps, j :: Behavior(ss, steps) && ss[0] == st && 0 <= j < |ss|
                                       && !Untouched(st.db, ss[j].db, k)
  }

  /** A final decision can still be changed or deleted exactly if a request threatens it.  As
      no request becomes a threat to a final decision, only those can that passed their checks
      while it was a draft. */
  lemma FinalIsTouchableIffThreatened(rows0: map<Key, Row>, st: State, k: Key)
    requires Inv(rows0, st) && FinalIn(st.db, k)
    ensures CanTouch(st, k) <==> Threatened(st, k)
  {
    hide Apply, Enabled, Inv, Untouched, Threatens, FinalIn;
    if Threatened(st, k) {
      var r :| 0 <= r < |st.procs| && Threatens(st, r, k);
      ThreatLands(rows0, st, r, k);
      var next := Apply(st, Write(r, 0, false));
      Extend([st], [], Write(r, 0, false));
      assert ([st] + [next])[1] == next;
    } else if CanTouch(st, k) {
      var ss: seq<State>, steps, j :| Behavior(ss, steps) && ss[0] == st && 0 <= j < |ss|
                                      && !Untouched(st.db, ss[j].db, k);
      UnthreatenedFinalStands(rows0, ss, steps, 0, j, k);
    }
  }

  lemma ThreatLands(rows0: map<Key, Row>, st: State, r: nat, k: Key)
    requires Inv(rows0, st) && Threatens(st, r, k)
    ensures Enabled(st, Write(r, 0, false)) && !Untouched(st.db, Apply(st, Write(r, 0, false)).db, k)
  {
    hide Check, Edited, RevisionFor;
    assert ProcOk(st.db.rows, st.procs[r]);
    if st.procs[r].pc.Checked? {
      MatchingWriteLands(rows0, st, r);
    }
  }

  // ---------- deleting a final decision ----------

  /** At step `m` request `rid` deletes a decision that is final. */
  predicate DeletesFinalAt(ss: seq<State>, steps: seq<Step>, rid: nat, k: Key, m: nat) {
    && m < |steps| && m + 1 < |ss| && steps[m].Write? && steps[m].rid == rid
    && Fetch(ss[m].db, k).Some? && IsFinal(ss[m].db.rows[k].status) && Fetch(ss[m + 1].db, k).None?
  }

  /** Request `rid` reads decision `k` at step `i`, finds it deletable, and deletes it at step `j`. */
  predicate ChecksThenDeletes(ss: seq<State>, steps: seq<Step>, i: nat, j: nat, rid: nat, k: Key) {
    && i < j < |steps| && j + 1 < |ss| && Enabled(ss[i], steps[i]) && Enabled(ss[j], steps[j])
    && steps[i].Read? && steps[i].rid == rid && rid < |ss[i + 1].procs| && ss[i + 1].procs[rid].pc.CheckedDelete?
    && Commits(ss[j], steps[j]) && steps[j].rid == rid
    && ss[i].procs[rid].req.Delete? && ss[i].procs[rid].req.key == k && k.agg == PriorityDecision
  }

  lemma DeletionStartsOnDraft(ss: seq<State>, steps: seq<Step>, i: nat, j: nat, rid: nat, k: Key)
    requires Run(ss, steps) && ChecksThenDeletes(ss, steps, i, j, rid, k)
    ensures k in ss[i].db.rows && ss[i].db.rows[k].status == DRAFT && !MovesAt(ss[i], steps[i], k)
  {
    assert ss[i + 1] == Apply(ss[i], steps[i]);
  }

  lemma DeletionLands(ss: seq<State>, steps: seq<Step>, i: nat, j: nat, rid: nat, k: Key)
    requires Run(ss, steps) && ChecksThenDeletes(ss, steps, i, j, rid, k)
    ensures k in ss[j].db.rows
    ensures DeletesFinalAt(ss, steps, rid, k, j) <==> IsFinal(ss[j].db.rows[k].status)
  {
    LogsGrow(ss, steps, i, j);
    Always(ss, steps, j);
    assert ProcOk(ss[j].db.rows, ss[j].procs[rid]);
    assert ss[j + 1] == Apply(ss[j], steps[j]);
  }

  /** In any run a deletion deletes a final decision exactly if a transition that no update follows
      is committed between its check and its delete. */
  lemma DeletesFinalIffMoveStands(ss: seq<State>, steps: seq<Step>, i: nat, j: nat, rid: nat, k: Key)
    requires Run(ss, steps) && ChecksThenDeletes(ss, steps, i, j, rid, k)
    ensures DeletesFinalAt(ss, steps, rid, k, j) <==> Finalised(ss, steps, i + 1, j, k)
  {
    hide Apply, Enabled, Inv, MovesAt, EditsAt, DeletesFinalAt;
    DeletionStartsOnDraft(ss, steps, i, j, rid, k);
    DeletionLands(ss, steps, i, j, rid, k);
    FinalIffMoveStands(ss, steps, i, j, k);
  }

  /** Some transition of the decision is committed strictly between two steps. */
  ghost predicate MovedBetween(ss: seq<State>, steps: seq<Step>, i: nat, j: nat, k: Key) {
    exists n :: i < n < j <= |steps| < |ss| && MovesAt(ss[n], steps[n], k)
  }

  /** In a run honest on the decision a deletion deletes it when final exactly if a finalisation
      commits between its check and its delete. */
  lemma DeletesFinalIffFinalisedBetween(ss: seq<State>, steps: seq<Step>, i: nat, j: nat, rid: nat, k: Key)
    requires HonestOn(ss, steps, k) && ChecksThenDeletes(ss, steps, i, j, rid, k)
    ensures DeletesFinalAt(ss, steps, rid, k, j) <==> MovedBetween(ss, steps, i, j, k)
  {
    hide Apply, Enabled, Inv, MovesAt, EditsAt, DeletesFinalAt;
    DeletesFinalIffMoveStands(ss, steps, i, j, rid, k);
    DeletionLands(ss, steps, i, j, rid, k);
    if MovedBetween(ss, steps, i, j, k) {
      var n :| i < n < j <= |steps| < |ss| && MovesAt(ss[n], steps[n], k);
      DeletionStartsOnDraft(ss, steps, i, j, rid, k);
      Ages(ss, steps, i, n);
      Always(ss, steps, n);
      StatusStep(ss[0].db.rows, ss[n], steps[n], k);
      FinalIsForever(ss, steps, n + 1, j, k);
    }
  }

  /** Checking and deleting are separate steps: every deletion that has passed its check on a
      draft can still end up deleting the final decision a reviewer makes of it. */
  lemma DeleteCanHitFinal(rows0: map<Key, Row>, st: State, rid: nat, reviewer: Account)
    returns (ss: seq<State>, steps: seq<Step>)
    requires Inv(rows0, st) && rid < |st.procs| && st.procs[rid].pc.CheckedDelete? && st.procs[rid].req.Delete?
    requires LiveDraft(st.db, st.procs[rid].req.key, st.procs[rid].pc.snap.version)
    requires MayFinalise(reviewer, st.db.rows[st.procs[rid].req.key].preparedBy)
    ensures Behavior(ss, steps) && ss[0] == st && Received(steps, {reviewer})
    ensures var k := st.procs[rid].req.key;
            steps == SoloSteps(|st.procs|, Finalisation(k, st.db.rows[k].version, reviewer), 0) + [Write(rid, 0, false)]
            && DeletesFinalAt(ss, steps, rid, k, 3)
  {
    hide Inv, Check, Edited, ValidFields;
    var k := st.procs[rid].req.key;
    ss, steps := Finalise(rows0, [st], [], k, st.db.rows[k].version, reviewer);
    Extend(ss, steps, Write(rid, 0, false));
    ss, steps := ss + [Apply(ss[|steps|], Write(rid, 0, false))], steps + [Write(rid, 0, false)];
  }
}
