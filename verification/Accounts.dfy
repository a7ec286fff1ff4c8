/** Laws of commit histories: version arithmetic, status counts, status walks and audit flow. */
module Accounts {
  import opened Domain
  import opened Protocol
  import opened History

  // ---------- versions ----------

  predicate GuardedOn(c: Commit, k: Key) { Guarded(c.req) && c.key == k }

  /** The number of updates and transitions committed on a row. */
  function Writes(history: seq<Commit>, k: Key): nat {
    if history == [] then 0
    else var last := |history| - 1; Writes(history[..last], k) + if GuardedOn(history[last], k) then 1 else 0
  }

  /** The version a row had at the start of the history, or was created with. */
  function BaseVersion(rows: map<Key, Row>, k: Key): nat {
    if k in rows then rows[k].version else 1
  }

  lemma {:induction false} VersionCountsCommits(rows: map<Key, Row>, history: seq<Commit>, k: Key)
    requires HistoryOk(rows, history)
    ensures if k in Replay(rows, history)
            then Replay(rows, history)[k].version == BaseVersion(rows, k) + Writes(history, k)
            else Writes(history, k) == 0 && k !in rows
  {
    if history != [] {
      VersionCountsCommits(rows, history[..|history| - 1], k);
    }
  }

  lemma {:induction false} WritesMonotone(history: seq<Commit>, i: nat, k: Key)
    requires i <= |history|
    ensures Writes(history[..i], k) <= Writes(history, k)
  {
    if i < |history| {
      WritesMonotone(history[..|history| - 1], i, k);
      assert history[..|history| - 1][..i] == history[..i];
    } else {
      assert history[..i] == history;
    }
  }

  /** A guarded commit expected the version its predecessors had produced. */
  lemma ExpectedIsCount(rows: map<Key, Row>, history: seq<Commit>, i: nat)
    requires HistoryOk(rows, history) && i < |history| && Guarded(history[i].req)
    ensures var k := history[i].key; history[i].req.expected == BaseVersion(rows, k) + Writes(history[..i], k)
  {
    CommitAt(rows, history, i);
    VersionCountsCommits(rows, history[..i], history[i].key);
  }

  /** Two guarded commits on a row found different versions, the later the larger. */
  lemma ExpectedVersionsIncrease(rows: map<Key, Row>, history: seq<Commit>, i: nat, j: nat)
    requires HistoryOk(rows, history) && i < j < |history|
    requires Guarded(history[i].req) && GuardedOn(history[j], history[i].key)
    ensures history[i].req.expected < history[j].req.expected
  {
    var k := history[i].key;
    ExpectedIsCount(rows, history, i);
    ExpectedIsCount(rows, history, j);
    WritesMonotone(history[..j], i + 1, k);
    assert history[..j][..i + 1] == history[..i + 1];
    assert history[..i + 1][..i] == history[..i];
  }

  /** No two commits on a row expected the same version. */
  lemma OneCommitPerVersion(rows: map<Key, Row>, history: seq<Commit>, i: nat, j: nat)
    requires HistoryOk(rows, history) && i < |history| && j < |history|
    requires Guarded(history[i].req) && Guarded(history[j].req)
    requires history[i].req.key == history[j].req.key && history[i].req.expected == history[j].req.expected
    ensures i == j
  {
    CommitAt(rows, history, i);
    CommitAt(rows, history, j);
    hide HistoryOk, Replay;
    if i < j {
      ExpectedVersionsIncrease(rows, history, i, j);
    } else if j < i {
      ExpectedVersionsIncrease(rows, history, j, i);
    }
  }

  // ---------- status counts ----------

  /** The live rows of an aggregate with a given status. */
  function Live(rows: map<Key, Row>, agg: Aggregate, status: string): set<Key> {
    set k | k in rows && k.agg == agg && !rows[k].deleted && rows[k].status == status
  }

  function Counts(row: Row, agg: Aggregate, key: Key, status: string): int {
    if key.agg == agg && !row.deleted && row.status == status then 1 else 0
  }

  /** The incremental ledger: the row left by a commit enters its bucket, the row found leaves its own. */
  function Ledger(history: seq<Commit>, agg: Aggregate, status: string): int {
    if history == [] then 0
    else
      var c := history[|history| - 1];
      Ledger(history[..|history| - 1], agg, status) + Counts(c.next, agg, c.key, status)
      - if c.prior.Some? then Counts(c.prior.value, agg, c.key, status) else 0
  }

  lemma LiveSplit(rows: map<Key, Row>, key: Key, agg: Aggregate, status: string)
    ensures |Live(rows, agg, status)|
            == |Live(rows, agg, status) - {key}| + if key in rows then Counts(rows[key], agg, key, status) else 0
  {
    var all := Live(rows, agg, status);
    if key in all {
      assert all == (all - {key}) + {key};
    } else {
      assert all == all - {key};
    }
  }

  lemma LiveAfterPut(rows: map<Key, Row>, key: Key, row: Row, agg: Aggregate, status: string)
    ensures |Live(rows[key := row], agg, status)|
            == |Live(rows, agg, status)| + Counts(row, agg, key, status)
               - if key in rows then Counts(rows[key], agg, key, status) else 0
  {
    LiveSplit(rows, key, agg, status);
    LiveSplit(rows[key := row], key, agg, status);
    assert Live(rows[key := row], agg, status) - {key} == Live(rows, agg, status) - {key};
  }

  /** Recounting a bucket gives what the ledger predicts. */
  lemma {:induction false} LedgerIsRecount(rows: map<Key, Row>, history: seq<Commit>, agg: Aggregate, status: string)
    requires HistoryOk(rows, history)
    ensures |Live(Replay(rows, history), agg, status)| == |Live(rows, agg, status)| + Ledger(history, agg, status)
  {
    if history != [] {
      var last := |history| - 1;
      LedgerIsRecount(rows, history[..last], agg, status);
      LiveAfterPut(Replay(rows, history[..last]), history[last].key, history[last].next, agg, status);
    }
  }

  // ---------- fresh histories and status walks ----------

  /** The snapshot a guarded commit was computed from is the row it replaced. */
  predicate Fresh(c: Commit) {
    Guarded(c.req) ==> c.prior == Some(c.snap)
  }

  /** Every commit on one row is fresh, whatever happens to the others. */
  predicate FreshOn(history: seq<Commit>, k: Key) {
    forall j :: 0 <= j < |history| && history[j].key == k ==> Fresh(history[j])
  }

  /** A guarded commit is fresh exactly if the client's version was not ahead of the one the server read. */
  lemma FreshIffNotAhead(rows: map<Key, Row>, c: Commit)
    requires CommitOk(rows, c) && Guarded(c.req)
    ensures Fresh(c) <==> c.req.expected <= c.snap.version
  {
  }

  /** The statuses a row has had, in version order, starting with its seeded or initial one. */
  function StatusPath(rows: map<Key, Row>, history: seq<Commit>, k: Key): seq<string> {
    if history == [] then if k in rows then [rows[k].status] else []
    else
      var c := history[|history| - 1];
      var path := StatusPath(rows, history[..|history| - 1], k);
      if c.key == k && !c.req.Delete? then path + [c.next.status] else path
  }

  /** For every guarded commit on a row, in the same order: was it a transition? */
  function Moves(history: seq<Commit>, k: Key): seq<bool> {
    if history == [] then []
    else
      var c := history[|history| - 1];
      var moves := Moves(history[..|history| - 1], k);
      if GuardedOn(c, k) then moves + [c.req.Transition?] else moves
  }

  /** A walk in the graph: transitions follow edges, updates stay put. */
  predicate IsWalk(graph: Graph, path: seq<string>, moves: seq<bool>) {
    && |path| == |moves| + 1
    && forall i :: 0 <= i < |moves| ==>
         if moves[i] then CanTransition(graph, path[i], path[i + 1]) else path[i + 1] == path[i]
  }

  lemma {:induction false} PathIsWalk(rows: map<Key, Row>, history: seq<Commit>, k: Key)
    requires HistoryOk(rows, history) && FreshOn(history, k)
    ensures var path, moves := StatusPath(rows, history, k), Moves(history, k);
            if k in Replay(rows, history)
            then IsWalk(Transitions(k.agg), path, moves) && path[|moves|] == Replay(rows, history)[k].status
                 && path[0] == (if k in rows then rows[k].status else InitialStatus(k.agg))
            else path == [] && moves == [] && k !in rows
  {
    if history != [] {
      var last := |history| - 1;
      PathIsWalk(rows, history[..last], k);
      var c := history[last];
      if GuardedOn(c, k) {
        assert Fresh(c);
        FreshMove(Replay(rows, history[..last]), c);
        WalkExtends(Transitions(k.agg), StatusPath(rows, history[..last], k), Moves(history[..last], k),
                    c.next.status, c.req.Transition?);
      }
    }
  }

  /** A fresh commit moves along an edge or leaves the status alone. */
  lemma FreshMove(rows: map<Key, Row>, c: Commit)
    requires CommitOk(rows, c) && Fresh(c) && Guarded(c.req)
    ensures if c.req.Transition? then CanTransition(Transitions(c.key.agg), rows[c.key].status, c.next.status)
            else c.next.status == rows[c.key].status
  {
  }

  lemma WalkExtends(graph: Graph, path: seq<string>, moves: seq<bool>, status: string, move: bool)
    requires IsWalk(graph, path, moves)
    requires if move then CanTransition(graph, path[|moves|], status) else status == path[|moves|]
    ensures IsWalk(graph, path + [status], moves + [move])
  {
  }

  lemma {:induction false} MovesCountWrites(history: seq<Commit>, k: Key)
    ensures |Moves(history, k)| == Writes(history, k)
  {
    if history != [] {
      MovesCountWrites(history[..|history| - 1], k);
    }
  }

  // ---------- audit flow ----------

  function Bit(b: bool): int { if b then 1 else 0 }

  /** What a transition audit says flowed into a status, less what it says flowed out. */
  function AuditEdge(a: Audit, k: Key, status: string): int {
    if a.action == "transition" && a.key == k then Bit(a.after == status) - Bit(a.before == status) else 0
  }

  function AuditFlow(audits: seq<Audit>, k: Key, status: string): int {
    if audits == [] then 0
    else AuditFlow(audits[..|audits| - 1], k, status) + AuditEdge(audits[|audits| - 1], k, status)
  }

  /** The flow of the committed transitions whose audit entry is not among `audited`. */
  function Owed(history: seq<Commit>, audited: set<nat>, k: Key, status: string): int {
    if history == [] then 0
    else
      var c := history[|history| - 1];
      Owed(history[..|history| - 1], audited, k, status)
      + if c.rid in audited then 0 else AuditEdge(AuditOf(c), k, status)
  }

  predicate DistinctRids(history: seq<Commit>) {
    forall i, j :: 0 <= i < j < |history| ==> history[i].rid != history[j].rid
  }

  lemma {:induction false} OwedIgnoresStrangers(history: seq<Commit>, audited: set<nat>, rid: nat, k: Key,
                                                status: string)
    requires forall j :: 0 <= j < |history| ==> history[j].rid != rid
    ensures Owed(history, audited + {rid}, k, status) == Owed(history, audited, k, status)
  {
    if history != [] {
      OwedIgnoresStrangers(history[..|history| - 1], audited, rid, k, status);
    }
  }

  /** Writing the audit entry of one commit settles exactly that commit. */
  lemma {:induction false} OwedSettles(history: seq<Commit>, audited: set<nat>, j: nat, k: Key, status: string)
    requires DistinctRids(history) && j < |history| && history[j].rid !in audited
    ensures Owed(history, audited + {history[j].rid}, k, status)
            == Owed(history, audited, k, status) - AuditEdge(AuditOf(history[j]), k, status)
  {
    var last := |history| - 1;
    if j < last {
      OwedSettles(history[..last], audited, j, k, status);
    } else {
      OwedIgnoresStrangers(history[..last], audited, history[j].rid, k, status);
    }
  }

  function OriginStatus(rows: map<Key, Row>, k: Key): string {
    if k in rows then rows[k].status else InitialStatus(k.agg)
  }

  /** The edges claimed by a row's fresh commits telescope to the change of status. */
  lemma {:induction false} FlowTelescopes(rows: map<Key, Row>, history: seq<Commit>, k: Key, status: string)
    requires HistoryOk(rows, history) && FreshOn(history, k)
    ensures Owed(history, {}, k, status)
            == if k in Replay(rows, history)
               then Bit(Replay(rows, history)[k].status == status) - Bit(OriginStatus(rows, k) == status) else 0
    ensures k in rows ==> k in Replay(rows, history)
  {
    hide CommitOk, Fresh, AuditEdge, AuditOf, Bit;
    if history != [] {
      var last := |history| - 1;
      FlowTelescopes(rows, history[..last], k, status);
      assert history[last].key == k ==> Fresh(history[last]);
      EdgeIsStatusChange(Replay(rows, history[..last]), history[last], k, status);
    }
  }

  /** A fresh commit's audit claims exactly the change of status it makes, and those on other rows none. */
  lemma EdgeIsStatusChange(rows: map<Key, Row>, c: Commit, k: Key, status: string)
    requires CommitOk(rows, c) && (c.key == k ==> Fresh(c))
    ensures k in rows[c.key := c.next] ==>
              AuditEdge(AuditOf(c), k, status)
              == Bit(rows[c.key := c.next][k].status == status) - Bit(OriginStatus(rows, k) == status)
    ensures k !in rows[c.key := c.next] ==> AuditEdge(AuditOf(c), k, status) == 0
  {
    EdgeOfCommit(c, k, status);
  }

  lemma EdgeOfCommit(c: Commit, k: Key, status: string)
    ensures AuditEdge(AuditOf(c), k, status)
            == if c.req.Transition? && c.key == k
               then Bit(Trim(c.req.target) == status) - Bit(c.snap.status == status) else 0
  {
    assert "create"[0] != "transition"[0] && "update"[0] != "transition"[0] && "delete"[0] != "transition"[0];
  }
}
