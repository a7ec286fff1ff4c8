/** What a sequence of commits does to the table, and what may be committed. */
module History {
  import opened Domain
  import opened Store
  import opened Protocol

  /** `later` is the same record as `earlier`, read no earlier: identity columns agree, the
      version has not dropped, and as long as the version is the same only the deletion mark
      can have changed. */
  predicate Older(earlier: Row, later: Row) {
    && earlier.code == later.code && earlier.createdAt == later.createdAt && earlier.preparedBy == later.preparedBy
    && earlier.version <= later.version && (earlier.deleted ==> later.deleted)
    && (earlier.version == later.version ==> earlier.(deleted := later.deleted) == later)
  }

  /** A live row read from the table at this or an earlier moment. */
  predicate ReadFrom(rows: map<Key, Row>, key: Key, snap: Row) {
    key in rows && !snap.deleted && Older(snap, rows[key])
  }

  /** The rows after a sequence of commits. */
  function Replay(rows: map<Key, Row>, history: seq<Commit>): map<Key, Row> {
    if history == [] then rows
    else var last := |history| - 1; Replay(rows, history[..last])[history[last].key := history[last].next]
  }

  predicate CreateOk(rows: map<Key, Row>, c: Commit)
    requires c.req.Create?
  {
    && c.key.agg == c.req.agg && c.key !in rows && c.prior == None
    && c.next == NewItem(c.req, c.next.createdAt) && c.snap == c.next
    && ValidFields(c.req.agg, c.req.code, c.req.fields)
    && !CodeTaken(rows, c.key.agg, c.next.code)
  }

  /** The transaction found a live row at the expected version and merged into it the
      edit of an earlier snapshot that had passed the checks. */
  predicate GuardedOk(rows: map<Key, Row>, c: Commit)
    requires Guarded(c.req)
  {
    && c.key == c.req.key && ReadFrom(rows, c.key, c.snap)
    && c.prior == Some(rows[c.key]) && !rows[c.key].deleted && rows[c.key].version == c.req.expected
    && Check(c.req, c.snap) == None
    && c.next == Merge(rows[c.key], Edited(c.req, c.snap, c.next.updatedAt))
  }

  predicate DeleteOk(rows: map<Key, Row>, c: Commit)
    requires c.req.Delete?
  {
    && c.key == c.req.key && ReadFrom(rows, c.key, c.snap)
    && c.prior == Some(rows[c.key]) && !rows[c.key].deleted
    && Check(c.req, c.snap) == None
    && c.next == rows[c.key].(deleted := true)
  }

  /** What a single commit may do to a table. */
  predicate CommitOk(rows: map<Key, Row>, c: Commit) {
    if c.req.Create? then CreateOk(rows, c)
    else if c.req.Delete? then DeleteOk(rows, c)
    else GuardedOk(rows, c)
  }

  ghost predicate HistoryOk(rows: map<Key, Row>, history: seq<Commit>) {
    history == [] ||
    (var last := |history| - 1;
     HistoryOk(rows, history[..last]) && CommitOk(Replay(rows, history[..last]), history[last]))
  }

  lemma ReplayAppend(rows: map<Key, Row>, history: seq<Commit>, c: Commit)
    ensures Replay(rows, history + [c]) == Replay(rows, history)[c.key := c.next]
    ensures HistoryOk(rows, history + [c]) <==> HistoryOk(rows, history) && CommitOk(Replay(rows, history), c)
  {
    assert (history + [c])[..|history|] == history;
  }

  /** Every entry of a good history found the table its predecessors left. */
  lemma {:induction false} CommitAt(rows: map<Key, Row>, history: seq<Commit>, j: nat)
    requires HistoryOk(rows, history) && j < |history|
    ensures HistoryOk(rows, history[..j]) && CommitOk(Replay(rows, history[..j]), history[j])
  {
    hide CommitOk;
    if j < |history| - 1 {
      CommitAt(rows, history[..|history| - 1], j);
      assert history[..|history| - 1][..j] == history[..j];
    }
  }

  /** A legal commit leaves every record at least as old as it was. */
  lemma CommitAges(rows: map<Key, Row>, c: Commit, k: Key)
    requires CommitOk(rows, c) && k in rows
    ensures k in rows[c.key := c.next] && Older(rows[k], rows[c.key := c.next][k])
  {
  }
}
