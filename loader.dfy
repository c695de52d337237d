/**
 * The command-line loader: clean the decoded document, then in one transaction
 * run the DROP/CREATE script and load the seven tables, rolling back and
 * aborting at the first failure, and commit.
 */
module Loader {
  import opened Wrappers
  import opened Entities
  import opened Schema
  import opened Descriptors
  import opened Engine
  import opened BulkLoad
  import opened Fgodata

  /** The DROP TABLE IF EXISTS statements of the schema script, in script order. */
  function ScriptDropOrder(): seq<TableName> {
    [AscensionCosts, SkillCosts, AscensionLevels, SkillLevels, Servants, Classes, Materials]
  }

  /** The CREATE TABLE statements of the schema script, in script order. */
  function ScriptCreateOrder(): seq<TableName> {
    [Materials, Classes, Servants, SkillLevels, AscensionLevels, SkillCosts, AscensionCosts]
  }

  /** The schema script: all drops, then all creates, sent as one statement batch. */
  function SchemaScript(): seq<Action> {
    Drops(ScriptDropOrder()) + Creates(ScriptCreateOrder())
  }

  /** The order the seven inserts run in. */
  function LoadOrder(): seq<TableName> {
    [Classes, Materials, Servants, SkillLevels, AscensionLevels, SkillCosts, AscensionCosts]
  }

  lemma ScriptDropOrderDistinct()
    ensures NoDuplicates(ScriptDropOrder())
  {
  }

  lemma ScriptCreateOrderDistinct()
    ensures NoDuplicates(ScriptCreateOrder())
  {
  }

  lemma LoadOrderDistinct()
    ensures NoDuplicates(LoadOrder())
  {
  }

  /** The script drops each table once, every table before the tables it references. */
  lemma ScriptDropOrderIsDropOrder()
    ensures ListsEveryTable(ScriptDropOrder()) && DropSafe(ScriptDropOrder())
  {
    ScriptDropOrderListsEveryTable();
    DeepFirstIsDropSafe(ScriptDropOrder());
  }

  lemma ScriptDropOrderListsEveryTable()
    ensures ListsEveryTable(ScriptDropOrder())
  {
    ScriptDropOrderDistinct();
    EveryTableListed(ScriptDropOrder());
  }

  /** The script creates each table once, every table after the tables it references. */
  lemma ScriptCreateOrderIsCreateOrder()
    ensures ListsEveryTable(ScriptCreateOrder()) && CreateSafe(ScriptCreateOrder())
  {
    ScriptCreateOrderListsEveryTable();
    ShallowFirstIsCreateSafe(ScriptCreateOrder());
  }

  lemma ScriptCreateOrderListsEveryTable()
    ensures ListsEveryTable(ScriptCreateOrder())
  {
    ScriptCreateOrderDistinct();
    EveryTableListed(ScriptCreateOrder());
  }

  /** The loads fill each table once, every table after the tables it references. */
  lemma LoadOrderIsCreateOrder()
    ensures ListsEveryTable(LoadOrder()) && CreateSafe(LoadOrder())
  {
    LoadOrderListsEveryTable();
    ShallowFirstIsCreateSafe(LoadOrder());
  }

  lemma LoadOrderListsEveryTable()
    ensures ListsEveryTable(LoadOrder())
  {
    LoadOrderDistinct();
    EveryTableListed(LoadOrder());
  }

  /** Unlike the library's two lists, the script's create order is exactly its drop order reversed. */
  lemma ScriptOrdersAreMirrorImages()
    ensures ScriptCreateOrder() == Reversed(ScriptDropOrder())
  {
  }

  /** Whatever the database held, the schema script leaves exactly the seven empty tables. */
  lemma {:induction false} SchemaScriptBuildsFreshSchema(db: Store, faults: set<Action>)
    requires forall t :: Drop(t) !in faults && Create(t) !in faults
    ensures Run(SchemaScript(), db, faults) == Outcome(None, FreshSchema())
  {
    ScriptDropOrderIsDropOrder();
    ScriptCreateOrderIsCreateOrder();
    RunAppend(Drops(ScriptDropOrder()), Creates(ScriptCreateOrder()), db, faults);
    DropsSucceed(ScriptDropOrder(), db, faults);
    MembersOfCompleteList(ScriptDropOrder());
    assert db - Members(ScriptDropOrder()) == map[];
    CreatesSucceed(ScriptCreateOrder(), map[], faults);
    MembersOfCompleteList(ScriptCreateOrder());
    EmptiedAllIsFresh(Members(ScriptCreateOrder()));
  }

  /** The same deletions as FgoData.Clean, applied to the loader's own copy of the document. */
  method CleanFgoData(fgo: FgoData)
    modifies fgo
    ensures fgo.Snapshot() == Cleaned(old(fgo.Snapshot()))
  {
    fgo.Clean();
  }

  /**
   * What the loader reports (the action that failed, if any) and what the
   * database holds afterwards, for a decoded document `d`.
   */
  function ImportOutcome(d: Collections, db: Store, faults: set<Action>): (r: Report)
    ensures r.failed.Some? ==> r.store == db
    ensures r.failed.Some? ==>
      || r.failed.value in [Open, Begin] + SchemaScript()
      || (r.failed.value.Copy? && r.failed.value.table in LoadOrder())
  {
    if Open in faults then Report(Some(Open), db)
    else if Begin in faults then Report(Some(Begin), db)
    else
      var schema := Run(SchemaScript(), db, faults);
      if schema.err.Some? then Report(Some(ActionOf(schema.err.value)), db)
      else
        Settle(LoadAll(LoadOrder(), Cleaned(d), schema.store, faults), db, faults)
  }

  /**
   * The end of the transaction after the loads: a failed load rolls back to
   * `db`; otherwise the commit, whose result is not looked at, either makes
   * the loaded tables durable or, when refused, leaves `db` as it was.
   */
  function Settle(loads: Report, db: Store, faults: set<Action>): (r: Report)
    ensures r.failed == loads.failed
    ensures r.failed.Some? || Commit in faults ==> r.store == db
    ensures r.failed.None? && Commit !in faults ==> r.store == loads.store
  {
    if loads.failed.Some? then Report(loads.failed, db)
    else Report(None, if Commit in faults then db else loads.store)
  }

  /**
   * One of the seven insert functions: COPY the map of table `t`, the `i`-th of
   * the load order, into the transaction. `loads` is what the rest of the load
   * order, from `t` on, does to the transaction.
   */
  method InsertTable(t: TableName, d: Collections, txn: Store, faults: set<Action>, ghost i: nat, ghost loads: Report)
    returns (err: Option<Error>, txn': Store)
    requires i < |LoadOrder()| && LoadOrder()[i] == t
    requires loads == LoadAll(LoadOrder()[i..], d, txn, faults)
    ensures err.Some? ==> loads.failed == FailedAction(err)
    ensures err.None? ==> loads == LoadAll(LoadOrder()[i + 1..], d, txn', faults)
  {
    assert LoadOrder()[i..][1..] == LoadOrder()[i + 1..];
    err, txn' := BatchInsert(t, d, txn, faults);
  }

  /**
   * The main sequence: clean the document, open the database, begin a
   * transaction, run the schema script, insert the seven tables one after the
   * other, and commit without looking at the result. Every failure before the
   * commit rolls the transaction back and aborts.
   */
  method Import(fgo: FgoData, db: Store, faults: set<Action>) returns (err: Option<Error>, db': Store)
    modifies fgo
    ensures fgo.Snapshot() == Cleaned(old(fgo.Snapshot()))
    ensures Report(FailedAction(err), db') == ImportOutcome(old(fgo.Snapshot()), db, faults)
  {
    ghost var original := fgo.Snapshot();
    CleanFgoData(fgo);
    var d := fgo.Snapshot();
    if Open in faults {
      return Some(Refused(Open)), db;
    }
    if Begin in faults {
      return Some(Refused(Begin)), db;
    }
    var schema := Run(SchemaScript(), db, faults);
    if schema.err.Some? {
      return schema.err, db;
    }
    err, db' := LoadAndCommit(d, schema.store, db, faults);
  }

  /** The first three inserts: the tables nothing else has to exist for (classes, materials) and servants. */
  method LoadParents(d: Collections, schema: Store, faults: set<Action>) returns (err: Option<Error>, txn: Store)
    ensures err.Some? ==> LoadAll(LoadOrder()[0..], d, schema, faults).failed == FailedAction(err)
    ensures err.None? ==> LoadAll(LoadOrder()[0..], d, schema, faults) == LoadAll(LoadOrder()[3..], d, txn, faults)
  {
    txn := schema;
    ghost var loads := LoadAll(LoadOrder()[0..], d, schema, faults);
    ghost var i := 0;
    err, txn := InsertTable(Classes, d, txn, faults, i, loads);
    if err.Some? {
      return;
    }
    i := i + 1;
    err, txn := InsertTable(Materials, d, txn, faults, i, loads);
    if err.Some? {
      return;
    }
    i := i + 1;
    err, txn := InsertTable(Servants, d, txn, faults, i, loads);
  }

  /** The last four inserts: the level tables, then the cost tables. */
  method LoadDependants(d: Collections, parents: Store, faults: set<Action>) returns (err: Option<Error>, txn: Store)
    ensures err.Some? ==> LoadAll(LoadOrder()[3..], d, parents, faults).failed == FailedAction(err)
    ensures err.None? ==> LoadAll(LoadOrder()[3..], d, parents, faults) == Report(None, txn)
  {
    txn := parents;
    ghost var loads := LoadAll(LoadOrder()[3..], d, txn, faults);
    ghost var i := 3;
    err, txn := InsertTable(SkillLevels, d, txn, faults, i, loads);
    if err.Some? {
      return;
    }
    i := i + 1;
    err, txn := InsertTable(AscensionLevels, d, txn, faults, i, loads);
    if err.Some? {
      return;
    }
    i := i + 1;
    err, txn := InsertTable(SkillCosts, d, txn, faults, i, loads);
    if err.Some? {
      return;
    }
    i := i + 1;
    err, txn := InsertTable(AscensionCosts, d, txn, faults, i, loads);
    if err.Some? {
      return;
    }
    assert LoadOrder()[7..] == [];
  }

  /** The seven inserts in load order, each aborting the transaction on failure, then the commit. */
  method LoadAndCommit(d: Collections, schema: Store, db: Store, faults: set<Action>) returns (err: Option<Error>, db': Store)
    ensures Report(FailedAction(err), db') == Settle(LoadAll(LoadOrder(), d, schema, faults), db, faults)
  {
    var txn;
    assert LoadOrder()[0..] == LoadOrder();
    err, txn := LoadParents(d, schema, faults);
    if err.Some? {
      return err, db;
    }
    err, txn := LoadDependants(d, txn, faults);
    if err.Some? {
      return err, db;
    }
    db' := if Commit in faults then db else txn;
  }

  // ---------------------------------------------------------------------------
  // What a run of the loader achieves
  // ---------------------------------------------------------------------------

  /** The failure the loads report when `f` is the first table whose contents break its constraints. */
  function CopyOf(f: Option<TableName>): Option<Action> {
    if f.None? then None else Some(Copy(f.value))
  }

  lemma {:induction false} PartialOfNothing(d: Collections)
    ensures Partial(d, {}) == FreshSchema()
  {
    forall t | t in AllTables ensures Partial(d, {})[t] == FreshSchema()[t] {
    }
  }

  lemma {:induction false} PartialOfEverything(d: Collections)
    ensures Partial(d, AllTables) == Dumped(d)
  {
    forall t | t in AllTables ensures Partial(d, AllTables)[t] == Dumped(d)[t] {
    }
  }

  /**
   * With no COPY refused, loading every table in an order that puts each table
   * after its parents, starting from the fresh schema, stops exactly at the
   * first invalid table, and otherwise holds the whole document.
   */
  lemma {:induction false} LoadsFromFreshSchema(order: seq<TableName>, d: Collections, faults: set<Action>)
    requires ListsEveryTable(order) && CreateSafe(order)
    requires forall t :: Copy(t) !in faults
    ensures var r := LoadAll(order, d, FreshSchema(), faults);
      && r.failed == CopyOf(FirstInvalid(order, d))
      && (r.failed.None? ==> r.store == Dumped(d))
  {
    PartialOfNothing(d);
    ParentsListed(order);
    LoadFromPartial(order, d, {}, faults);
    EverythingLoaded(order, d);
  }

  lemma {:induction false} ParentsListed(order: seq<TableName>)
    requires ListsEveryTable(order)
    ensures forall i, p :: 0 <= i < |order| && p in References(order[i]) ==> p in {} || p in order
  {
  }

  lemma {:induction false} EverythingLoaded(order: seq<TableName>, d: Collections)
    requires ListsEveryTable(order)
    ensures Partial(d, {} + Members(order)) == Dumped(d)
  {
    MembersOfCompleteList(order);
    assert {} + Members(order) == AllTables;
    PartialOfEverything(d);
  }

  /** Every table is valid exactly when the whole document is. */
  lemma {:induction false} FirstInvalidIffInvalid(d: Collections)
    ensures FirstInvalid(LoadOrder(), d).None? <==> DocumentValid(d)
  {
    LoadOrderListsEveryTable();
    ConsistentIffValid(d);
    if FirstInvalid(LoadOrder(), d).None? {
      forall t ensures TableValid(RowsOf(t, d), Dumped(d)) {
        assert t in LoadOrder();
      }
    }
  }

  /**
   * With nothing refused by the database, the loader fails exactly when the
   * cleaned document breaks a constraint, naming the first such table in load
   * order; otherwise the database ends up holding exactly the cleaned document.
   */
  lemma {:induction false} ImportSucceedsIffValid(d: Collections, db: Store)
    ensures var r := ImportOutcome(d, db, {});
      && (r.failed.None? <==> DocumentValid(Cleaned(d)))
      && r.failed == CopyOf(FirstInvalid(LoadOrder(), Cleaned(d)))
      && (r.failed.None? ==> r.store == Dumped(Cleaned(d)))
      && (r.failed.Some? ==> r.store == db)
  {
    SchemaScriptBuildsFreshSchema(db, {});
    LoadOrderIsCreateOrder();
    LoadsFromFreshSchema(LoadOrder(), Cleaned(d), {});
    FirstInvalidIffInvalid(Cleaned(d));
  }

  /** A successful import can be read back: the tables decode to the cleaned document. */
  lemma {:induction false} ImportRoundTrip(d: Collections, db: Store)
    requires DocumentValid(Cleaned(d))
    ensures var r := ImportOutcome(d, db, {});
      && r.failed.None?
      && (forall t :: UniqueIds(TableRows(r.store, t)))
      && Restore(r.store) == Cleaned(d)
  {
    ImportSucceedsIffValid(d, db);
    RestoreDumped(Cleaned(d));
  }

  /** The loader acts on the cleaned document only: cleaning beforehand changes nothing. */
  lemma {:induction false} ImportSeesOnlyCleanedData(d: Collections, db: Store, faults: set<Action>)
    ensures ImportOutcome(Cleaned(d), db, faults) == ImportOutcome(d, db, faults)
  {
    CleanedIdempotent(d);
  }

  /**
   * The result of the commit is not looked at: when it is refused the loader
   * reports the same outcome as a successful run, while the database is left
   * as it was.
   */
  lemma {:induction false} CommitFailureIsSilent(d: Collections, db: Store)
    ensures ImportOutcome(d, db, {Commit}).failed == ImportOutcome(d, db, {}).failed
    ensures ImportOutcome(d, db, {Commit}).store == db
  {
    SchemaScriptBuildsFreshSchema(db, {});
    SchemaScriptBuildsFreshSchema(db, {Commit});
    LoadsIgnoreOtherFaults(LoadOrder(), Cleaned(d), FreshSchema(), {Commit}, {});
  }

  /** The loads depend only on which COPY actions the database refuses. */
  lemma {:induction false} LoadsIgnoreOtherFaults(order: seq<TableName>, d: Collections, st: Store, f1: set<Action>, f2: set<Action>)
    requires forall t :: Copy(t) in f1 <==> Copy(t) in f2
    ensures LoadAll(order, d, st, f1) == LoadAll(order, d, st, f2)
    decreases |order|
  {
    if order != [] && Copy(order[0]) !in f1 && BatchValid(order[0], RowsOf(order[0], d), st) {
      LoadsIgnoreOtherFaults(order[1..], d, Loaded(st, order[0], d), f1, f2);
    }
  }

  /**
   * The cleaner deletes a level whose servant is missing but keeps the level's
   * skill costs, so a document holding such a cost never loads: the skill
   * costs table rejects it and the database is left as it was.
   */
  lemma {:induction false} OrphanedCostBlocksImport(d: Collections, db: Store, k: int)
    requires k in d.skillCosts
    requires d.skillCosts[k].skillLevelId in d.skillLevels
    requires d.skillLevels[d.skillCosts[k].skillLevelId].servantId !in d.servants
    ensures ImportOutcome(d, db, {}).failed.Some?
    ensures ImportOutcome(d, db, {}).store == db
  {
    CleanerDoesNotCascade(d, k);
    assert !SkillCostsValid(Cleaned(d));
    ImportSucceedsIffValid(d, db);
  }

  /** The same for an ascension cost whose ascension level belongs to a missing servant. */
  lemma {:induction false} OrphanedAscensionCostBlocksImport(d: Collections, db: Store, k: int)
    requires k in d.ascensionCosts
    requires d.ascensionCosts[k].ascensionLevelId in d.ascensionLevels
    requires d.ascensionLevels[d.ascensionCosts[k].ascensionLevelId].servantId !in d.servants
    ensures ImportOutcome(d, db, {}).failed.Some?
    ensures ImportOutcome(d, db, {}).store == db
  {
    CleanerDoesNotCascadeAscension(d, k);
    assert !AscensionCostsValid(Cleaned(d));
    ImportSucceedsIffValid(d, db);
  }
}
