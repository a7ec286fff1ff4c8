/** When a server that has been running can be started again.  Seeding looks for live rows, but
    the index on codes also holds the soft-deleted ones. */
module Restart {
  import opened Domain
  import opened Store
  import opened Protocol
  import opened Invariants
  import opened Seeding
  import opened Binding
  import opened Limits
  import opened Effects

  /** The server has been seeded at some time: every table has a row, live or not, with the first
      of its shipped codes, and one of the shipped final decisions is there and live. */
  ghost predicate Stocked(db: Db) {
    && (forall agg :: CodeTaken(db.rows, agg, ShippedCodes(agg)[0]))
    && (exists k :: FinalIn(db, k) && !db.rows[k].deleted)
  }

  lemma ShippedIsStocked(keys: seq<Key>, texts: (Aggregate, nat) -> Fields, now: int)
    requires FreshKeys(keys)
    ensures Stocked(ShippedDb(keys, texts, now))
  {
    hide ShippedDb, FreshKeys;
    var db := ShippedDb(keys, texts, now);
    forall agg ensures CodeTaken(db.rows, agg, ShippedCodes(agg)[0]) {
      TablesAreAll(agg);
      var t :| 0 <= t < |TABLES| && TABLES[t] == agg;
      ShippedAt(keys, t, 0, texts, now);
      assert db.rows[keys[3 * t]].code == ShippedCodes(agg)[0];
    }
    ShippedAt(keys, 3, 1, texts, now);
    assert TABLES[3] == PriorityDecision;
    assert FinalIn(db, keys[10]);
  }

  /** Every run keeps the server stocked: codes are never given up, and a decision that was final
      when the run began is never deleted. */
  lemma StockedStays(ss: seq<State>, steps: seq<Step>, i: nat)
    requires Run(ss, steps) && i < |ss| && Stocked(ss[0].db)
    ensures Stocked(ss[i].db)
  {
    Ages(ss, steps, 0, i);
    forall agg ensures CodeTaken(ss[i].db.rows, agg, ShippedCodes(agg)[0]) {
      var code := ShippedCodes(agg)[0];
      var k :| k in ss[0].db.rows && k.agg == agg && ss[0].db.rows[k].code == code;
      assert ss[i].db.rows[k].code == code;
    }
    var k :| FinalIn(ss[0].db, k) && !ss[0].db.rows[k].deleted;
    FinalFromStartStands(ss, steps, i, k);
    assert FinalIn(ss[i].db, k);
  }

  /** After any run of a server that has been seeded, it can be started again - storage faults
      aside - exactly if there is a live bridge, a live inspection and a live defect. */
  lemma RestartsIffLive(ss: seq<State>, steps: seq<Step>, i: nat, texts: (Aggregate, nat) -> Fields, later: int)
    requires Run(ss, steps) && i < |ss| && Stocked(ss[0].db)
    ensures (forall agg :: CanSeed(ss[i].db.rows, agg, Shipped(agg, texts, later)))
            <==> (forall agg :: agg != PriorityDecision ==> HasLive(ss[i].db.rows, agg))
  {
    hide Stocked;
    StockedStays(ss, steps, i);
    forall agg ensures CanSeed(ss[i].db.rows, agg, Shipped(agg, texts, later)) <==> HasLive(ss[i].db.rows, agg) {
      NeedsLive(ss[i].db, agg, texts, later);
    }
    DecisionsAreLive(ss[i].db);
  }

  lemma NeedsLive(db: Db, agg: Aggregate, texts: (Aggregate, nat) -> Fields, later: int)
    requires Stocked(db)
    ensures CanSeed(db.rows, agg, Shipped(agg, texts, later)) <==> HasLive(db.rows, agg)
  {
    assert !CanStore(db.rows, agg, Shipped(agg, texts, later)[0]);
  }

  lemma DecisionsAreLive(db: Db)
    requires Stocked(db)
    ensures HasLive(db.rows, PriorityDecision)
  {
  }

  /** The codes of the shipped rows differ, and so do all codes of every run from there. */
  lemma ShippedCodesDiffer(keys: seq<Key>, texts: (Aggregate, nat) -> Fields, now: int)
    requires FreshKeys(keys)
    ensures CodesDiffer(ShippedDb(keys, texts, now).rows)
  {
    hide ShippedDb, FreshKeys;
    var rows := ShippedDb(keys, texts, now).rows;
    forall k, q | k in rows && q in rows && k.agg == q.agg && rows[k].code == rows[q].code ensures k == q {
      var t, n := OnlyShipped(keys, texts, now, k);
      var u, m := OnlyShipped(keys, texts, now, q);
      CodesTellApart(TABLES[t], n, m);
      TablesTellApart(t, u);
    }
  }

  lemma CodesTellApart(agg: Aggregate, n: nat, m: nat)
    requires n < 3 && m < 3 && ShippedCodes(agg)[n] == ShippedCodes(agg)[m]
    ensures n == m
  {
    assert ShippedCodes(agg)[n][5] == ShippedCodes(agg)[m][5];
  }

  lemma TablesTellApart(t: nat, u: nat)
    requires t < 4 && u < 4 && TABLES[t] == TABLES[u]
    ensures t == u
  {
  }

  // ---------- emptying a table ----------

  function LiveKeys(rows: map<Key, Row>, agg: Aggregate): set<Key> {
    set k | k in rows && k.agg == agg && !rows[k].deleted
  }

  function Deletion(k: Key, admin: Account): Request { Delete(k, admin.name, admin.role, "delete") }

  /** A deletion running alone. */
  lemma DeletesAlone(st: State, k: Key, admin: Account) returns (s1: State, s2: State, s3: State)
    requires k.agg != PriorityDecision && Fetch(st.db, k).Some?
    ensures var n := |st.procs|;
            && s1 == Apply(st, Invoke(Deletion(k, admin)))
            && Enabled(s1, Read(n, 0, false)) && s2 == Apply(s1, Read(n, 0, false))
            && Enabled(s2, Write(n, 0, false)) && s3 == Apply(s2, Write(n, 0, false))
    ensures s3.db.rows == st.db.rows[k := st.db.rows[k].(deleted := true)]
  {
    var n := |st.procs|;
    s1 := Apply(st, Invoke(Deletion(k, admin)));
    s2 := Apply(s1, Read(n, 0, false));
    s3 := Apply(s2, Write(n, 0, false));
  }

  /** An admin can delete all bridges, all inspections or all defects. */
  lemma {:induction false} TableCanBeEmptied(ss: seq<State>, steps: seq<Step>, agg: Aggregate, admin: Account,
                                             accounts: set<Account>)
    returns (ss': seq<State>, steps': seq<Step>)
    requires Behavior(ss, steps) && agg != PriorityDecision && admin.role == Admin && admin in accounts
    requires Received(steps, accounts)
    ensures Behavior(ss', steps') && ss'[0] == ss[0] && Received(steps', accounts)
    ensures !HasLive(ss'[|steps'|].db.rows, agg)
    decreases LiveKeys(ss[|steps|].db.rows, agg)
  {
    hide Apply, Enabled;
    var st, n := ss[|steps|], |ss[|steps|].procs|;
    if k :| k in LiveKeys(st.db.rows, agg) {
      var s1, s2, s3 := DeletesAlone(st, k, admin);
      Arrives(ss, steps, Deletion(k, admin));
      Extend(ss + [s1], steps + [Invoke(Deletion(k, admin))], Read(n, 0, false));
      Extend(ss + [s1] + [s2], steps + [Invoke(Deletion(k, admin))] + [Read(n, 0, false)], Write(n, 0, false));
      var more := steps + [Invoke(Deletion(k, admin))] + [Read(n, 0, false)] + [Write(n, 0, false)];
      assert LiveKeys(s3.db.rows, agg) == LiveKeys(st.db.rows, agg) - {k};
      ss', steps' := TableCanBeEmptied(ss + [s1] + [s2] + [s3], more, agg, admin, accounts);
    } else {
      ss', steps' := ss, steps;
      assert forall k :: k in st.db.rows && k.agg == agg && !st.db.rows[k].deleted ==> k in LiveKeys(st.db.rows, agg);
    }
  }

  /** So each of these tables can keep a server from starting again. */
  lemma RestartCanFail(keys: seq<Key>, agg: Aggregate, texts: (Aggregate, nat) -> Fields, now: int, later: int)
    returns (ss: seq<State>, steps: seq<Step>)
    requires FreshKeys(keys) && agg != PriorityDecision
    ensures Run(ss, steps) && ss[0].db == ShippedDb(keys, texts, now) && Received(steps, SEED_ACCOUNTS)
    ensures !CanSeed(ss[|steps|].db.rows, agg, Shipped(agg, texts, later))
  {
    hide ShippedDb, FreshKeys, ChainInv, Stocked;
    ShippedAt(keys, 0, 0, texts, now);
    ShippedIsStocked(keys, texts, now);
    var s0 := State(ShippedDb(keys, texts, now), [], [], []);
    ss, steps := TableCanBeEmptied([s0], [], agg, Account("admin", Admin), SEED_ACCOUNTS);
    StockedStays(ss, steps, |steps|);
    NeedsLive(ss[|steps|].db, agg, texts, later);
  }
}
