/** What the handlers let through fits the columns it is stored in. */
module Columns {
  import opened Domain
  import opened Text
  import opened Store
  import opened Protocol
  import opened Invariants
  import opened Ownership
  import opened Effects
  import opened Binding

  /** No text is longer than its column. */
  predicate Fits(row: Row) {
    && |row.code| <= 64 && |row.status| <= 40 && |row.fields.name| <= 160 && |row.fields.description| <= 1000
    && |row.fields.facility| <= 120 && |row.fields.owner| <= 120 && |row.fields.category| <= 80
    && |row.fields.riskLevel| <= 32 && |row.fields.metricUnit| <= 24 && |row.fields.evidence| <= 2000
    && |row.fields.relatedCode| <= 64
  }

  /** Every request of the run is one that arrived, and so was let through. */
  lemma {:induction false} RequestsWereReceived(ss: seq<State>, steps: seq<Step>, accounts: set<Account>,
                                                i: nat, r: nat)
    requires Run(ss, steps) && Received(steps, accounts) && i < |ss| && r < |ss[i].procs|
    ensures Receivable(ss[i].procs[r].req)
  {
    hide Receivable, AfterRead, AfterValidation, Transact;
    assert ss[i] == Apply(ss[i - 1], steps[i - 1]);
    if r < |ss[i - 1].procs| {
      RequestsWereReceived(ss, steps, accounts, i - 1, r);
      LogsGrow(ss, steps, i - 1, i);
    }
  }

  lemma StoredTextsFit(agg: Aggregate, row: Row, input: Fields)
    requires StoredFrom(row.fields, input) && FieldsFit(agg, input) && |row.code| <= 64 && |row.status| <= 40
    ensures Fits(row)
  {
    TrimTwice(input.name);
    TrimTwice(input.description);
    TrimTwice(input.facility);
    TrimTwice(input.owner);
    TrimTwice(input.category);
    TrimTwice(input.metricUnit);
    TrimTwice(input.evidence);
    TrimTwice(input.relatedCode);
  }

  lemma CommitFits(c: Commit)
    requires DoesAsAsked(c) && Receivable(c.req)
    requires !c.req.Create? ==> Fits(c.prior.value)
    requires Guarded(c.req) ==> Fits(c.snap)
    ensures Fits(c.next)
  {
    hide Complete, Edges;
    match c.req
    case Create(agg, code, fields, _, _, _) =>
      TrimTwice(code);
      CapitalsKeepShape(Trim(code));
      StoredTextsFit(agg, c.next, fields);
    case Update(key, _, fields, _, _, _) =>
      StoredTextsFit(key.agg, c.next, fields);
    case Transition(_, _, target, _, _, _, _) =>
      TrimTwice(target);
    case Delete(_, _, _, _) =>
  }

  /** In a run of received requests every row fits its columns, if those at the start do. */
  lemma {:induction false} RowsFit(ss: seq<State>, steps: seq<Step>, accounts: set<Account>, i: nat, k: Key)
    requires Run(ss, steps) && Received(steps, accounts) && i < |ss| && k in ss[i].db.rows
    requires k in ss[0].db.rows ==> Fits(ss[0].db.rows[k])
    ensures Fits(ss[i].db.rows[k])
  {
    hide Apply, Enabled, Inv, Fits, Receivable, Accepts, Transact, Received;
    if i > 0 {
      RowStep(ss, steps, i - 1, k);
      if Commits(ss[i - 1], steps[i - 1]) && CommitOf(ss[i - 1], steps[i - 1]).key == k {
        var c := CommitOf(ss[i - 1], steps[i - 1]);
        RequestsWereReceived(ss, steps, accounts, i - 1, c.rid);
        if !c.req.Create? {
          RowsFit(ss, steps, accounts, i - 1, k);
          CommitCarries(ss[i - 1], steps[i - 1]);
          var n, now := CheckedHasRead(ss, steps, i - 1, c.rid);
          LogsGrow(ss, steps, n, i - 1);
          RowsFit(ss, steps, accounts, n, k);
        }
        CommitFits(c);
      } else {
        RowsFit(ss, steps, accounts, i - 1, k);
      }
    }
  }

  /** And every revision it adds has a reason that fits. */
  lemma ReasonsFit(ss: seq<State>, steps: seq<Step>, accounts: set<Account>, i: nat, k: Key, n: nat)
    requires Run(ss, steps) && Received(steps, accounts) && i < |ss| && k.agg == PriorityDecision
    requires |RevisionsOf(ss[0].db, k)| <= n < |RevisionsOf(ss[i].db, k)|
    ensures |RevisionsOf(ss[i].db, k)[n].reason| <= 500
  {
    hide Apply, Enabled, Inv, Received;
    RevisionsAreCommits(ss, steps, i, k, n);
    var c :| c in ss[i].history && c.key == k && Records(RevisionsOf(ss[i].db, k)[n], c);
    OwnedAlways(ss, steps, i);
    RequestsWereReceived(ss, steps, accounts, i, c.rid);
    if c.req.Transition? {
      TrimTwice(c.req.reason);
    }
  }
}
