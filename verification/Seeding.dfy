/** Filling empty tables when the server starts. */
module Seeding {
  import opened Domain
  import opened Text
  import opened Store
  import opened Invariants
  import opened Protocol
  import opened Discipline
  import opened Services

  const SEED_PREPARER := "operator"
  const SEED_REVIEWER := "reviewer"

  // ---------- what a seeded row brings with it ----------

  function SeedDraft(item: Row): Revision {
    Revision(1, DRAFT, item.fields.evidence, "seeded decision draft", SEED_PREPARER, "seed-" + item.code + "-create",
             SeedSnapshot(item.code, DRAFT, item.fields.evidence), Operator)
  }

  function SeedReview(item: Row): Revision {
    Revision(item.version, item.status, item.fields.evidence, "seeded independent review", SEED_REVIEWER,
             "seed-" + item.code + "-review", SeedSnapshot(item.code, item.status, item.fields.evidence), Reviewer)
  }

  /** The revisions a seeded decision gets. */
  function SeedRevisions(item: Row): seq<Revision> {
    if item.status == DRAFT then [SeedDraft(item)] else [SeedDraft(item), SeedReview(item)]
  }

  predicate WellSeeded(item: Row) {
    && item.preparedBy == SEED_PREPARER
    && ((item.status == DRAFT && item.version == 1) || (IsFinal(item.status) && item.version == 2))
  }

  /** The seeded revisions form a chain for exactly the drafts of version 1 and the final
      decisions of version 2, prepared by the seed's preparer. */
  lemma SeedIsChainIffWell(item: Row)
    ensures ChainOk(item, SeedRevisions(item)) <==> WellSeeded(item)
  {
    DecisionEdges(DRAFT, item.status);
    assert SEED_PREPARER[0] == 'o' && SEED_REVIEWER[0] == 'r';
    var revisions := SeedRevisions(item);
    if ChainOk(item, revisions) {
      assert AuthorOk(item.preparedBy, revisions[0]);
      assert AuthorOk(item.preparedBy, revisions[|revisions| - 1]);
    }
  }

  // ---------- the tables after seeding ----------

  /** One more row and, if it is a decision, its revisions. */
  function Put(db: Db, key: Key, item: Row): Db {
    Db(db.rows[key := item],
       if key.agg == PriorityDecision then db.revisions[key := SeedRevisions(item)] else db.revisions)
  }

  /** The tables after items have been stored under the given keys. */
  function Seeded(db: Db, keys: seq<Key>, items: seq<Row>): Db
    requires |keys| == |items|
  {
    if keys == [] then db
    else var last := |keys| - 1; Put(Seeded(db, keys[..last], items[..last]), keys[last], items[last])
  }

  predicate DecisionsWellSeeded(keys: seq<Key>, items: seq<Row>)
    requires |keys| == |items|
  {
    forall i :: 0 <= i < |keys| && keys[i].agg == PriorityDecision ==> WellSeeded(items[i])
  }

  lemma {:induction false} SeededKeepsChains(db: Db, keys: seq<Key>, items: seq<Row>)
    requires |keys| == |items| && ChainInv(db) && DecisionsWellSeeded(keys, items)
    ensures ChainInv(Seeded(db, keys, items))
  {
    if keys != [] {
      var last := |keys| - 1;
      SeededKeepsChains(db, keys[..last], items[..last]);
      PutKeepsChains(Seeded(db, keys[..last], items[..last]), keys[last], items[last]);
    }
  }

  lemma PutKeepsChains(db: Db, key: Key, item: Row)
    requires ChainInv(db) && (key.agg == PriorityDecision ==> WellSeeded(item))
    ensures ChainInv(Put(db, key, item))
  {
    hide ChainOk, WellSeeded, SeedRevisions;
    var after := Put(db, key, item);
    SeedIsChainIffWell(item);
    forall k | k in after.rows && k.agg == PriorityDecision ensures ChainOk(after.rows[k], RevisionsOf(after, k)) {
      if k != key {
        assert RevisionsOf(after, k) == RevisionsOf(db, k);
      }
    }
  }

  predicate Distinct<T(==)>(s: seq<T>) {
    forall i, j :: 0 <= i < j < |s| ==> s[i] != s[j]
  }

  /** Each item is stored under its key, and nothing else has changed. */
  lemma {:induction false} SeededAt(db: Db, keys: seq<Key>, items: seq<Row>, i: nat)
    requires |keys| == |items| && Distinct(keys) && i < |keys|
    ensures var after := Seeded(db, keys, items);
            && keys[i] in after.rows && after.rows[keys[i]] == items[i]
            && (keys[i].agg == PriorityDecision ==> RevisionsOf(after, keys[i]) == SeedRevisions(items[i]))
  {
    var last := |keys| - 1;
    if i < last {
      SeededAt(db, keys[..last], items[..last], i);
    }
  }

  lemma {:induction false} SeededElsewhere(db: Db, keys: seq<Key>, items: seq<Row>, k: Key)
    requires |keys| == |items| && k !in keys
    ensures var after := Seeded(db, keys, items);
            && (k in after.rows <==> k in db.rows) && (k in db.rows ==> after.rows[k] == db.rows[k])
            && RevisionsOf(after, k) == RevisionsOf(db, k)
  {
    if keys != [] {
      SeededElsewhere(db, keys[..|keys| - 1], items[..|items| - 1], k);
    }
  }

  lemma {:induction false} SeededTwice(db: Db, keys: seq<Key>, items: seq<Row>, keys': seq<Key>, items': seq<Row>)
    requires |keys| == |items| && |keys'| == |items'|
    ensures Seeded(Seeded(db, keys, items), keys', items') == Seeded(db, keys + keys', items + items')
  {
    hide Put;
    if keys' == [] {
      assert keys + keys' == keys && items + items' == items;
    } else {
      var last := |keys'| - 1;
      SeededTwice(db, keys, items, keys'[..last], items'[..last]);
      assert (keys + keys')[..|keys| + last] == keys + keys'[..last];
      assert (items + items')[..|keys| + last] == items + items'[..last];
    }
  }

  // ---------- filling one table ----------

  /** Does the table hold a live row? */
  predicate HasLive(rows: map<Key, Row>, agg: Aggregate) {
    exists k :: k in rows && k.agg == agg && !rows[k].deleted
  }

  /** The unique indexes admit the item and its revisions; codes of soft-deleted rows count. */
  predicate CanStore(rows: map<Key, Row>, agg: Aggregate, item: Row) {
    !CodeTaken(rows, agg, item.code) && (agg == PriorityDecision ==> item.status == DRAFT || item.version != 1)
  }

  /** The unique indexes admit all the items together. */
  predicate CanStoreAll(rows: map<Key, Row>, agg: Aggregate, items: seq<Row>) {
    && (forall i :: 0 <= i < |items| ==> CanStore(rows, agg, items[i]))
    && (forall i, j :: 0 <= i < j < |items| ==> items[i].code != items[j].code)
  }

  /** Seeding a table does nothing if a row is live, and otherwise needs its items to be admitted. */
  predicate CanSeed(rows: map<Key, Row>, agg: Aggregate, items: seq<Row>) {
    HasLive(rows, agg) || CanStoreAll(rows, agg, items)
  }

  predicate HasCode(items: seq<Row>, code: string) {
    exists i :: 0 <= i < |items| && items[i].code == code
  }

  lemma CodesAfterPut(rows: map<Key, Row>, key: Key, item: Row, code: string)
    requires key !in rows
    ensures CodeTaken(rows[key := item], key.agg, code) <==> CodeTaken(rows, key.agg, code) || item.code == code
  {
    if CodeTaken(rows, key.agg, code) {
      var k :| k in rows && k.agg == key.agg && rows[k].code == code;
      assert rows[key := item][k].code == code;
    }
    assert rows[key := item][key] == item;
  }

  /** Stores one item, and a decision's revisions, under a new key. */
  method SeedRow(repo: Repository, agg: Aggregate, item: Row) returns (key: Key, error: Option<Error>)
    requires forall k :: k in repo.revisions ==> k in repo.rows
    modifies repo
    ensures repo.audits == old(repo.audits) && key.agg == agg && key !in old(repo.rows)
    ensures error.None? ==> CanStore(old(repo.rows), agg, item) && repo.Value() == Put(old(repo.Value()), key, item)
    ensures error.Some? && error.value != StorageFault ==> !CanStore(old(repo.rows), agg, item)
  {
    FreshKeyExists(repo.rows.Keys, agg);
    var id: nat :| Key(agg, id) !in repo.rows;
    key := Key(agg, id);
    var fault: bool := *;
    if fault {
      return key, Some(StorageFault);
    }
    if CodeTaken(repo.rows, agg, item.code) {
      return key, Some(DuplicateCode);
    }
    repo.rows := repo.rows[key := item];
    error := None;
    if agg == PriorityDecision {
      error := repo.InsertRevision(key, SeedDraft(item));
      assert repo.revisions[key] == [SeedDraft(item)];
      if item.status != DRAFT {
        assert repo.revisions[key][0].version == 1;
        error := repo.InsertRevision(key, SeedReview(item));
        assert error.None? ==> repo.revisions[key] == [SeedDraft(item), SeedReview(item)];
      }
    }
  }

  /** What is known while a table is being filled: the first `n` items are in, under new keys. */
  ghost predicate Filling(before: Db, now: Db, agg: Aggregate, keys: seq<Key>, items: seq<Row>, n: nat)
  {
    && n == |keys| <= |items| && now == Seeded(before, keys, items[..n]) && Distinct(keys)
    && (forall i :: 0 <= i < n ==> keys[i].agg == agg && keys[i] !in before.rows && keys[i] in now.rows)
    && (forall k :: k in before.rows ==> k in now.rows)
    && (forall k :: k in now.revisions ==> k in now.rows)
    && CanStoreAll(before.rows, agg, items[..n])
    && (forall code :: CodeTaken(now.rows, agg, code) <==>
                         CodeTaken(before.rows, agg, code) || HasCode(items[..n], code))
  }

  lemma FillsOneMore(before: Db, now: Db, agg: Aggregate, keys: seq<Key>, items: seq<Row>, n: nat, key: Key)
    requires Filling(before, now, agg, keys, items, n) && n < |items|
    requires key.agg == agg && key !in now.rows && CanStore(now.rows, agg, items[n])
    ensures Filling(before, Put(now, key, items[n]), agg, keys + [key], items, n + 1)
  {
    hide CodeTaken, SeedRevisions, Seeded, CanStoreAll, HasCode;
    var some, more := items[..n], items[..n + 1];
    assert more == some + [items[n]];
    SeededOneMore(before, keys, some, key, items[n]);
    StoresOneMore(before.rows, agg, some, items[n], now.rows);
    forall code
      ensures CodeTaken(Put(now, key, items[n]).rows, agg, code) <==>
                CodeTaken(before.rows, agg, code) || HasCode(more, code)
    {
      CodesAfterPut(now.rows, key, items[n], code);
      OneMoreCode(some, items[n], code);
    }
  }

  lemma SeededOneMore(db: Db, keys: seq<Key>, items: seq<Row>, key: Key, item: Row)
    requires |keys| == |items|
    ensures Seeded(db, keys + [key], items + [item]) == Put(Seeded(db, keys, items), key, item)
  {
    assert (keys + [key])[..|keys|] == keys && (items + [item])[..|items|] == items;
  }

  lemma StoresOneMore(rows: map<Key, Row>, agg: Aggregate, items: seq<Row>, item: Row, now: map<Key, Row>)
    requires CanStoreAll(rows, agg, items) && CanStore(now, agg, item)
    requires CodeTaken(now, agg, item.code) <==> CodeTaken(rows, agg, item.code) || HasCode(items, item.code)
    ensures CanStoreAll(rows, agg, items + [item])
  {
    hide CodeTaken;
    var all := items + [item];
    forall i | 0 <= i < |all| ensures CanStore(rows, agg, all[i]) {
      assert i < |items| ==> all[i] == items[i];
    }
    forall i, j | 0 <= i < j < |all| ensures all[i].code != all[j].code {
      assert all[i] == items[i] && (j < |items| ==> all[j] == items[j]);
    }
  }

  lemma OneMoreCode(items: seq<Row>, item: Row, code: string)
    ensures HasCode(items + [item], code) <==> HasCode(items, code) || item.code == code
  {
    assert (items + [item])[|items|] == item;
    if HasCode(items, code) {
      var i :| 0 <= i < |items| && items[i].code == code;
      assert (items + [item])[i].code == code;
    }
  }

  /** An item that is refused after the first `n` were stored cannot be stored with the others. */
  lemma RefusedMidway(before: Db, now: Db, agg: Aggregate, keys: seq<Key>, items: seq<Row>, n: nat)
    requires Filling(before, now, agg, keys, items, n) && n < |items| && !CanStore(now.rows, agg, items[n])
    ensures !CanStoreAll(before.rows, agg, items)
  {
  }

  /** Stores the items, all or none, unless the table has a live row.  Storage faults aside, this
      succeeds exactly if it can. */
  method SeedTable(repo: Repository, agg: Aggregate, items: seq<Row>) returns (keys: seq<Key>, error: Option<Error>)
    requires forall k :: k in repo.revisions ==> k in repo.rows
    modifies repo
    ensures repo.audits == old(repo.audits) && |keys| <= |items|
    ensures forall k :: k in repo.revisions ==> k in repo.rows
    ensures error != Some(StorageFault) ==> (error.None? <==> old(CanSeed(repo.rows, agg, items)))
    ensures error.Some? || old(HasLive(repo.rows, agg)) ==> repo.Value() == old(repo.Value())
    ensures error.None? && !old(HasLive(repo.rows, agg)) ==>
              && |keys| == |items| && Distinct(keys)
              && (forall i :: 0 <= i < |keys| ==> keys[i].agg == agg && keys[i] !in old(repo.rows))
              && repo.Value() == Seeded(old(repo.Value()), keys, items)
  {
    hide Seeded, CodeTaken, CanStore, CanStoreAll, Distinct, Put;
    keys, error := [], None;
    var fault: bool := *;
    if fault {
      return keys, Some(StorageFault);
    }
    if HasLive(repo.rows, agg) {
      return;
    }
    var rows, revisions := repo.rows, repo.revisions;
    ghost var before := repo.Value();
    FillingStarts(before, agg, items);
    var i := 0;
    while i < |items|
      invariant 0 <= i <= |items| && error.None?
      invariant repo.audits == old(repo.audits) && rows == old(repo.rows) && revisions == old(repo.revisions)
      invariant Filling(before, repo.Value(), agg, keys, items, i)
    {
      ghost var filled := repo.Value();
      var key;
      key, error := SeedRow(repo, agg, items[i]);
      if error.Some? {
        if error.value != StorageFault {
          RefusedMidway(before, filled, agg, keys, items, i);
        }
        repo.rows, repo.revisions := rows, revisions;
        return;
      }
      FillsOneMore(before, filled, agg, keys, items, i, key);
      keys := keys + [key];
      i := i + 1;
    }
    assert items[..|items|] == items;
  }

  lemma FillingStarts(before: Db, agg: Aggregate, items: seq<Row>)
    requires forall k :: k in before.revisions ==> k in before.rows
    ensures Filling(before, before, agg, [], items, 0)
  {
  }

  // ---------- filling all tables ----------

  /** The tables in the order in which the server fills them. */
  const TABLES := [BridgeAsset, InspectionRound, DefectFinding, PriorityDecision]

  function ShippedCodes(agg: Aggregate): seq<string> {
    match agg
    case BridgeAsset => ["BA-001", "BA-002", "BA-003"]
    case InspectionRound => ["IR-001", "IR-002", "IR-003"]
    case DefectFinding => ["DF-001", "DF-002", "DF-003"]
    case PriorityDecision => ["PD-001", "PD-002", "PD-003"]
  }

  function ShippedStatuses(agg: Aggregate): seq<string> {
    match agg
    case BridgeAsset => ["active", "restricted", "closed"]
    case InspectionRound => ["planned", "running", "review"]
    case DefectFinding => ["new", "verified", "monitoring"]
    case PriorityDecision => ["draft", "observe", "restrict"]
  }

  /** The `n`-th row the server ships with; `texts` gives its business fields. */
  function ShippedRow(agg: Aggregate, n: nat, texts: (Aggregate, nat) -> Fields, now: int): Row
    requires n < 3
  {
    var decision := agg == PriorityDecision;
    Row(ShippedCodes(agg)[n], texts(agg, n), ShippedStatuses(agg)[n], if decision && n > 0 then 2 else 1,
        if decision then SEED_PREPARER else "", now, now, false)
  }

  function Shipped(agg: Aggregate, texts: (Aggregate, nat) -> Fields, now: int): (items: seq<Row>)
    ensures |items| == 3
  {
    [ShippedRow(agg, 0, texts, now), ShippedRow(agg, 1, texts, now), ShippedRow(agg, 2, texts, now)]
  }

  /** For each row the server adds, the table it goes to ... */
  function MissingTables(rows: map<Key, Row>, tables: seq<Aggregate>): seq<Aggregate> {
    if tables == [] then []
    else
      var agg := tables[|tables| - 1];
      MissingTables(rows, tables[..|tables| - 1]) + if HasLive(rows, agg) then [] else [agg, agg, agg]
  }

  /** ... and the row: the shipped ones of every table without a live row. */
  function MissingRows(rows: map<Key, Row>, tables: seq<Aggregate>, texts: (Aggregate, nat) -> Fields, now: int)
    : seq<Row>
  {
    if tables == [] then []
    else
      var agg := tables[|tables| - 1];
      MissingRows(rows, tables[..|tables| - 1], texts, now)
      + if HasLive(rows, agg) then [] else Shipped(agg, texts, now)
  }

  /** Distinct new keys, one for each row that is added. */
  predicate KeysFit(rows: map<Key, Row>, tables: seq<Aggregate>, keys: seq<Key>) {
    && |keys| == |MissingTables(rows, tables)| && Distinct(keys)
    && (forall i :: 0 <= i < |keys| ==> keys[i].agg == MissingTables(rows, tables)[i] && keys[i] !in rows)
  }

  lemma {:induction false} MissingMatch(rows: map<Key, Row>, tables: seq<Aggregate>,
                                        texts: (Aggregate, nat) -> Fields, now: int)
    ensures |MissingRows(rows, tables, texts, now)| == |MissingTables(rows, tables)|
    ensures forall i :: 0 <= i < |MissingTables(rows, tables)| ==>
              && MissingTables(rows, tables)[i] in tables
              && (MissingTables(rows, tables)[i] == PriorityDecision ==>
                    WellSeeded(MissingRows(rows, tables, texts, now)[i]))
  {
    hide WellSeeded, HasLive, Shipped;
    if tables != [] {
      MissingMatch(rows, tables[..|tables| - 1], texts, now);
      ShippedAreWell(tables[|tables| - 1], texts, now);
    }
  }

  lemma ShippedAreWell(agg: Aggregate, texts: (Aggregate, nat) -> Fields, now: int)
    ensures agg == PriorityDecision ==> forall i :: 0 <= i < 3 ==> WellSeeded(Shipped(agg, texts, now)[i])
  {
  }

  /** Two versions of the rows agree on one table. */
  ghost predicate SameTable(rows: map<Key, Row>, rows': map<Key, Row>, agg: Aggregate) {
    forall k: Key :: k.agg == agg ==> (k in rows <==> k in rows') && (k in rows ==> rows[k] == rows'[k])
  }

  lemma SameTableSeedsAlike(rows: map<Key, Row>, rows': map<Key, Row>, agg: Aggregate, items: seq<Row>)
    requires SameTable(rows, rows', agg)
    ensures HasLive(rows, agg) <==> HasLive(rows', agg)
    ensures CanSeed(rows, agg, items) <==> CanSeed(rows', agg, items)
  {
    forall code ensures CodeTaken(rows, agg, code) <==> CodeTaken(rows', agg, code) {
    }
    forall i | 0 <= i < |items| ensures CanStore(rows, agg, items[i]) <==> CanStore(rows', agg, items[i]) {
    }
  }

  lemma SeededSparesTable(db: Db, keys: seq<Key>, items: seq<Row>, agg: Aggregate)
    requires |keys| == |items| && forall i :: 0 <= i < |keys| ==> keys[i].agg != agg
    ensures SameTable(db.rows, Seeded(db, keys, items).rows, agg)
  {
    forall k: Key | k.agg == agg
      ensures (k in db.rows <==> k in Seeded(db, keys, items).rows)
      ensures k in db.rows ==> db.rows[k] == Seeded(db, keys, items).rows[k]
    {
      SeededElsewhere(db, keys, items, k);
    }
  }

  /** What is known while the tables are being filled: those in `done` have got their missing rows. */
  ghost predicate Filled(before: Db, now: Db, done: seq<Aggregate>, keys: seq<Key>,
                          texts: (Aggregate, nat) -> Fields, clock: int)
  {
    && KeysFit(before.rows, done, keys)
    && |MissingRows(before.rows, done, texts, clock)| == |keys|
    && now == Seeded(before, keys, MissingRows(before.rows, done, texts, clock))
  }

  lemma SeedsOneMore(before: Db, now: Db, done: seq<Aggregate>, keys: seq<Key>, texts: (Aggregate, nat) -> Fields,
                     clock: int, agg: Aggregate, keys': seq<Key>)
    requires Filled(before, now, done, keys, texts, clock) && agg !in done
    requires if HasLive(before.rows, agg) then keys' == []
             else && |keys'| == 3 && Distinct(keys')
                  && forall i :: 0 <= i < 3 ==> keys'[i].agg == agg && keys'[i] !in now.rows
    ensures var items := if HasLive(before.rows, agg) then [] else Shipped(agg, texts, clock);
            Filled(before, Seeded(now, keys', items), done + [agg], keys + keys', texts, clock)
  {
    hide Seeded, Shipped;
    var items := if HasLive(before.rows, agg) then [] else Shipped(agg, texts, clock);
    assert (done + [agg])[..|done|] == done;
    MissingMatch(before.rows, done, texts, clock);
    SeededTwice(before, keys, MissingRows(before.rows, done, texts, clock), keys', items);
    SeededSparesTable(before, keys, MissingRows(before.rows, done, texts, clock), agg);
  }

  lemma SeededNone(db: Db)
    ensures Seeded(db, [], []) == db
  {
  }

  lemma TableUntouched(before: Db, now: Db, done: seq<Aggregate>, keys: seq<Key>, texts: (Aggregate, nat) -> Fields,
                       clock: int, agg: Aggregate)
    requires Filled(before, now, done, keys, texts, clock) && agg !in done
    ensures SameTable(before.rows, now.rows, agg)
  {
    MissingMatch(before.rows, done, texts, clock);
    SeededSparesTable(before, keys, MissingRows(before.rows, done, texts, clock), agg);
  }

  lemma TablesAreAll(agg: Aggregate)
    ensures agg in TABLES
  {
    assert TABLES[0] == BridgeAsset && TABLES[1] == InspectionRound;
    assert TABLES[2] == DefectFinding && TABLES[3] == PriorityDecision;
  }

  lemma FillingBegins(before: Db, texts: (Aggregate, nat) -> Fields, clock: int)
    ensures Filled(before, before, [], [], texts, clock)
  {
  }

  lemma TableKeepsChains(db: Db, keys: seq<Key>, agg: Aggregate, texts: (Aggregate, nat) -> Fields, now: int)
    requires ChainInv(db) && |keys| == 3 && forall i :: 0 <= i < 3 ==> keys[i].agg == agg
    ensures ChainInv(Seeded(db, keys, Shipped(agg, texts, now)))
  {
    SeededKeepsChains(db, keys, Shipped(agg, texts, now));
  }

  /** Fills every table without a live row.  Storage faults aside, this succeeds exactly if every
      table can be seeded; the tables filled before a failure stay filled. */
  method Seed(repo: Repository, texts: (Aggregate, nat) -> Fields, now: int)
    returns (ghost keys: seq<Key>, error: Option<Error>)
    requires ChainInv(repo.Value())
    modifies repo
    ensures repo.audits == old(repo.audits) && ChainInv(repo.Value())
    ensures error != Some(StorageFault) ==>
              (error.None? <==> forall agg :: old(CanSeed(repo.rows, agg, Shipped(agg, texts, now))))
    ensures exists n :: 0 <= n <= |TABLES| && (error.None? ==> n == |TABLES|)
              && Filled(old(repo.Value()), repo.Value(), TABLES[..n], keys, texts, now)
  {
    hide ChainOk, Seeded, Shipped, CanSeed, Filled, Distinct;
    keys, error := [], None;
    ghost var before := repo.Value();
    FillingBegins(before, texts, now);
    var i := 0;
    while i < |TABLES|
      invariant 0 <= i <= |TABLES| && error.None? && repo.audits == old(repo.audits)
      invariant ChainInv(repo.Value()) && Filled(before, repo.Value(), TABLES[..i], keys, texts, now)
      invariant forall j :: 0 <= j < i ==> CanSeed(before.rows, TABLES[j], Shipped(TABLES[j], texts, now))
    {
      ghost var st := repo.Value();
      TableUntouched(before, st, TABLES[..i], keys, texts, now, TABLES[i]);
      SameTableSeedsAlike(before.rows, st.rows, TABLES[i], Shipped(TABLES[i], texts, now));
      var added;
      added, error := SeedTable(repo, TABLES[i], Shipped(TABLES[i], texts, now));
      if error.Some? {
        return;
      }
      SeededNone(st);
      if !HasLive(before.rows, TABLES[i]) {
        TableKeepsChains(st, added, TABLES[i], texts, now);
      }
      ghost var stored := if HasLive(before.rows, TABLES[i]) then [] else added;
      SeedsOneMore(before, st, TABLES[..i], keys, texts, now, TABLES[i], stored);
      assert TABLES[..i + 1] == TABLES[..i] + [TABLES[i]];
      keys := keys + stored;
      i := i + 1;
    }
    forall agg ensures CanSeed(before.rows, agg, Shipped(agg, texts, now)) {
      TablesAreAll(agg);
    }
  }

  // ---------- starting the server ----------

  /** The keys and rows of a freshly seeded server. */
  predicate FreshKeys(keys: seq<Key>) { KeysFit(map[], TABLES, keys) }

  function ShippedRows(texts: (Aggregate, nat) -> Fields, now: int): seq<Row> {
    MissingRows(map[], TABLES, texts, now)
  }

  /** The rows the server ships with stand table by table. */
  lemma {:induction false} ShippedLayout(tables: seq<Aggregate>, t: nat, n: nat,
                                         texts: (Aggregate, nat) -> Fields, now: int)
    requires t < |tables| && n < 3
    ensures |MissingTables(map[], tables)| == |MissingRows(map[], tables, texts, now)| == 3 * |tables|
    ensures MissingTables(map[], tables)[3 * t + n] == tables[t]
    ensures MissingRows(map[], tables, texts, now)[3 * t + n] == ShippedRow(tables[t], n, texts, now)
  {
    hide ShippedRow;
    var last := |tables| - 1;
    if last == 0 {
      assert tables[..0] == [];
    } else {
      ShippedLayout(tables[..last], if t < last then t else 0, n, texts, now);
    }
    if t == last {
      assert Shipped(tables[t], texts, now)[n] == ShippedRow(tables[t], n, texts, now);
      assert [tables[t], tables[t], tables[t]][n] == tables[t];
    }
  }

  /** The tables of a freshly seeded server. */
  function ShippedDb(keys: seq<Key>, texts: (Aggregate, nat) -> Fields, now: int): Db
    requires FreshKeys(keys)
  {
    MissingMatch(map[], TABLES, texts, now);
    Seeded(Db(map[], map[]), keys, ShippedRows(texts, now))
  }

  /** Each shipped row is in its table, live and, if it is a decision, with its revisions. */
  lemma ShippedAt(keys: seq<Key>, t: nat, n: nat, texts: (Aggregate, nat) -> Fields, now: int)
    requires FreshKeys(keys) && t < |TABLES| && n < 3
    ensures |keys| == 12 && keys[3 * t + n].agg == TABLES[t] && ChainInv(ShippedDb(keys, texts, now))
    ensures Fetch(ShippedDb(keys, texts, now), keys[3 * t + n]) == Some(ShippedRow(TABLES[t], n, texts, now))
  {
    hide MissingRows, MissingTables, Seeded, ShippedRow, ChainOk, WellSeeded;
    ShippedLayout(TABLES, t, n, texts, now);
    MissingMatch(map[], TABLES, texts, now);
    SeededAt(Db(map[], map[]), keys, ShippedRows(texts, now), 3 * t + n);
    SeededKeepsChains(Db(map[], map[]), keys, ShippedRows(texts, now));
    ShippedIsLive(TABLES[t], n, texts, now);
  }

  /** The shipped rows: the plain ones are at version 1, and their statuses follow the graph from the
      initial one; the decisions are a draft and, reviewed and so at version 2, two final ones. */
  lemma ShippedRowIs(agg: Aggregate, n: nat, texts: (Aggregate, nat) -> Fields, now: int)
    requires n < 3
    ensures var row := ShippedRow(agg, n, texts, now);
            && row.fields == texts(agg, n) && row.createdAt == now && row.updatedAt == now && !row.deleted
            && (agg != PriorityDecision ==>
                  && row.version == 1 && row.preparedBy == "" && (n == 0 ==> row.status == InitialStatus(agg))
                  && (n > 0 ==> CanTransition(Transitions(agg), ShippedRow(agg, n - 1, texts, now).status, row.status)))
            && (agg == PriorityDecision ==>
                  && row.version == (if n == 0 then 1 else 2) && row.preparedBy == "operator"
                  && row.status == ["draft", "observe", "restrict"][n])
  {
    if n > 0 && agg != PriorityDecision {
      StatusesFollow(agg, n);
    }
  }

  lemma StatusesFollow(agg: Aggregate, n: nat)
    requires 0 < n < 3 && agg != PriorityDecision
    ensures CanTransition(Transitions(agg), ShippedStatuses(agg)[n - 1], ShippedStatuses(agg)[n])
  {
    TransitionsAreEdges(agg, ShippedStatuses(agg)[n - 1], ShippedStatuses(agg)[n]);
  }

  lemma ShippedIsLive(agg: Aggregate, n: nat, texts: (Aggregate, nat) -> Fields, now: int)
    requires n < 3
    ensures !ShippedRow(agg, n, texts, now).deleted
  {
  }

  /** The shipped draft has one revision, the shipped final decisions a draft's and a review's. */
  lemma ShippedRevisions(keys: seq<Key>, n: nat, texts: (Aggregate, nat) -> Fields, now: int)
    requires FreshKeys(keys) && n < 3
    ensures |keys| == 12
    ensures var code, evidence := ["PD-001", "PD-002", "PD-003"][n], texts(PriorityDecision, n).evidence;
            var revisions := RevisionsOf(ShippedDb(keys, texts, now), keys[9 + n]);
            && |revisions| == (if n == 0 then 1 else 2)
            && revisions[0] == Revision(1, "draft", evidence, "seeded decision draft", "operator",
                                        "seed-" + code + "-create", SeedSnapshot(code, "draft", evidence), Operator)
            && (n > 0 ==>
                  var status := if n == 1 then "observe" else "restrict";
                  revisions[1] == Revision(2, status, evidence, "seeded independent review", "reviewer",
                                           "seed-" + code + "-review", SeedSnapshot(code, status, evidence), Reviewer))
  {
    hide MissingRows, MissingTables, Seeded;
    ShippedLayout(TABLES, 3, n, texts, now);
    MissingMatch(map[], TABLES, texts, now);
    SeededAt(Db(map[], map[]), keys, ShippedRows(texts, now), 9 + n);
    assert TABLES[3] == PriorityDecision;
    assert "observe"[0] == 'o' && "restrict"[0] == 'r' && "draft"[0] == 'd';
  }

  /** Only the shipped rows are there. */
  lemma OnlyShipped(keys: seq<Key>, texts: (Aggregate, nat) -> Fields, now: int, k: Key) returns (t: nat, n: nat)
    requires FreshKeys(keys) && k in ShippedDb(keys, texts, now).rows
    ensures t < 4 && n < 3 && |keys| == 12 && k == keys[3 * t + n] && k.agg == TABLES[t]
    ensures ShippedDb(keys, texts, now).rows[k] == ShippedRow(TABLES[t], n, texts, now)
  {
    hide MissingRows, MissingTables, Seeded, ShippedRow;
    MissingMatch(map[], TABLES, texts, now);
    ShippedLayout(TABLES, 0, 0, texts, now);
    if k !in keys {
      SeededElsewhere(Db(map[], map[]), keys, ShippedRows(texts, now), k);
    }
    var i :| 0 <= i < |keys| && keys[i] == k;
    t, n := i / 3, i % 3;
    ShippedAt(keys, t, n, texts, now);
  }

  /** Nothing stands in the way of the shipped rows on an empty database. */
  lemma EmptyCanBeSeeded(agg: Aggregate, texts: (Aggregate, nat) -> Fields, now: int)
    ensures CanSeed(map[], agg, Shipped(agg, texts, now))
  {
    forall i, j | 0 <= i < j < 3 ensures ShippedCodes(agg)[i] != ShippedCodes(agg)[j] {
      assert ShippedCodes(agg)[i][5] != ShippedCodes(agg)[j][5];
    }
  }

  /** Starts the server on an empty database.  Only a storage fault can keep it from starting;
      otherwise it begins a run on the shipped rows and their revisions. */
  method Boot(texts: (Aggregate, nat) -> Fields, now: int)
    returns (backend: Backend?, ghost keys: seq<Key>, error: Option<Error>)
    ensures if error.Some? then error.value == StorageFault && backend == null
            else && backend != null && fresh(backend) && fresh(backend.repo) && backend.Valid() && FreshKeys(keys)
                 && backend.trace == Start(State(ShippedDb(keys, texts, now), [], [], []))
  {
    hide CanSeed, Seeded, MissingRows, KeysFit;
    var repo := new Repository(map[], map[]);
    keys, error := Seed(repo, texts, now);
    forall agg ensures CanSeed(map[], agg, Shipped(agg, texts, now)) {
      EmptyCanBeSeeded(agg, texts, now);
    }
    if error.Some? {
      return null, keys, error;
    }
    assert TABLES[..|TABLES|] == TABLES;
    backend := new Backend(repo);
  }

  /** All revisions of a seeded decision but the last are drafts. */
  lemma SeedsAreDraftsFirst(item: Row)
    ensures DraftsFirst(SeedRevisions(item))
  {
  }

  /** In a run that begins on a freshly seeded server and is honest on a decision, revision
      statuses read draft, ..., draft and then at most one final. */
  lemma SeededDraftsThenFinal(ss: seq<State>, steps: seq<Step>, i: nat, k: Key, keys: seq<Key>,
                              texts: (Aggregate, nat) -> Fields, now: int)
    requires HonestOn(ss, steps, k) && i < |ss| && k.agg == PriorityDecision
    requires FreshKeys(keys) && ss[0].db == ShippedDb(keys, texts, now)
    ensures k in ss[i].db.rows ==> DraftsFirst(RevisionsOf(ss[i].db, k))
  {
    hide MissingRows, MissingTables;
    MissingMatch(map[], TABLES, texts, now);
    var items := ShippedRows(texts, now);
    if k in keys {
      var n :| 0 <= n < |keys| && keys[n] == k;
      SeededAt(Db(map[], map[]), keys, items, n);
      SeedsAreDraftsFirst(items[n]);
    } else {
      SeededElsewhere(Db(map[], map[]), keys, items, k);
    }
    DraftsThenFinal(ss, steps, i, k);
  }
}
