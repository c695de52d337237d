/**
 * The `FgoData` document and its operations: removing orphaned levels, the two
 * table lists, and dropping and creating the schema inside a transaction.
 */
module Fgodata {
  import opened Wrappers
  import opened Entities
  import opened Schema
  import opened Engine
  import Sets

  // ---------------------------------------------------------------------------
  // The cleaner
  // ---------------------------------------------------------------------------

  /** The skill levels kept while the keys of `pending` are still to be examined. */
  function KeptSkillLevels(levels: map<int, SkillLevel>, servants: map<int, Servant>, pending: set<int>): map<int, SkillLevel> {
    map k | k in levels && (k in pending || levels[k].servantId in servants) :: levels[k]
  }

  function KeptAscensionLevels(levels: map<int, AscensionLevel>, servants: map<int, Servant>, pending: set<int>): map<int, AscensionLevel> {
    map k | k in levels && (k in pending || levels[k].servantId in servants) :: levels[k]
  }

  /** The document once every level whose servant is missing has been deleted. */
  function Cleaned(d: Collections): (c: Collections)
    ensures LevelsOwned(c)
    ensures c.servants == d.servants && c.classes == d.classes && c.materials == d.materials
    ensures c.skillCosts == d.skillCosts && c.ascensionCosts == d.ascensionCosts
    ensures c.skillLevels.Keys <= d.skillLevels.Keys
    ensures forall k :: k in c.skillLevels ==> c.skillLevels[k] == d.skillLevels[k]
    ensures forall k :: k in d.skillLevels && d.skillLevels[k].servantId in d.servants ==> k in c.skillLevels
    ensures c.ascensionLevels.Keys <= d.ascensionLevels.Keys
    ensures forall k :: k in c.ascensionLevels ==> c.ascensionLevels[k] == d.ascensionLevels[k]
    ensures forall k :: k in d.ascensionLevels && d.ascensionLevels[k].servantId in d.servants ==> k in c.ascensionLevels
  {
    d.(skillLevels := KeptSkillLevels(d.skillLevels, d.servants, {}),
       ascensionLevels := KeptAscensionLevels(d.ascensionLevels, d.servants, {}))
  }

  /** Cleaning twice is cleaning once. */
  lemma {:induction false} CleanedIdempotent(d: Collections)
    ensures Cleaned(Cleaned(d)) == Cleaned(d)
  {
    var c := Cleaned(d);
    assert Cleaned(c).skillLevels == c.skillLevels;
    assert Cleaned(c).ascensionLevels == c.ascensionLevels;
  }

  /** The cleaner changes a document exactly when some level belongs to no known servant. */
  lemma {:induction false} CleanedChangesOnlyOrphans(d: Collections)
    ensures Cleaned(d) == d <==> LevelsOwned(d)
  {
    if LevelsOwned(d) {
      var c := Cleaned(d);
      forall k | k in d.skillLevels ensures k in c.skillLevels {
        assert d.skillLevels[k].servantId in d.servants;
      }
      forall k | k in d.ascensionLevels ensures k in c.ascensionLevels {
        assert d.ascensionLevels[k].servantId in d.servants;
      }
      assert c.skillLevels == d.skillLevels;
      assert c.ascensionLevels == d.ascensionLevels;
    }
  }

  /** A cost whose level is deleted survives the cleaner, now pointing at a missing level. */
  lemma {:induction false} CleanerDoesNotCascade(d: Collections, k: int)
    requires k in d.skillCosts
    requires d.skillCosts[k].skillLevelId in d.skillLevels
    requires d.skillLevels[d.skillCosts[k].skillLevelId].servantId !in d.servants
    ensures k in Cleaned(d).skillCosts && Cleaned(d).skillCosts[k] == d.skillCosts[k]
    ensures d.skillCosts[k].skillLevelId !in Cleaned(d).skillLevels
  {
  }

  /** The same gap for ascension costs. */
  lemma {:induction false} CleanerDoesNotCascadeAscension(d: Collections, k: int)
    requires k in d.ascensionCosts
    requires d.ascensionCosts[k].ascensionLevelId in d.ascensionLevels
    requires d.ascensionLevels[d.ascensionCosts[k].ascensionLevelId].servantId !in d.servants
    ensures k in Cleaned(d).ascensionCosts && Cleaned(d).ascensionCosts[k] == d.ascensionCosts[k]
    ensures d.ascensionCosts[k].ascensionLevelId !in Cleaned(d).ascensionLevels
  {
  }

  // ---------------------------------------------------------------------------
  // The table lists
  // ---------------------------------------------------------------------------

  /** The order CreateSchema creates the tables in. */
  function Tables(): seq<TableName> {
    [Materials, Classes, Servants, AscensionLevels, SkillLevels, AscensionCosts, SkillCosts]
  }

  /** The order DropSchema drops the tables in. */
  function TablesToDrop(): seq<TableName> {
    [SkillCosts, AscensionCosts, SkillLevels, AscensionLevels, Servants, Materials, Classes]
  }

  /** Tables lists each table once, every table after the tables it references. */
  lemma TablesIsCreateOrder()
    ensures ListsEveryTable(Tables()) && CreateSafe(Tables())
  {
    TablesListsEveryTable();
    ShallowFirstIsCreateSafe(Tables());
  }

  lemma TablesListsEveryTable()
    ensures ListsEveryTable(Tables())
  {
    TablesDistinct();
    EveryTableListed(Tables());
  }

  lemma TablesDistinct()
    ensures NoDuplicates(Tables())
  {
  }

  /** TablesToDrop lists each table once, every table before the tables it references. */
  lemma TablesToDropIsDropOrder()
    ensures ListsEveryTable(TablesToDrop()) && DropSafe(TablesToDrop())
  {
    TablesToDropListsEveryTable();
    DeepFirstIsDropSafe(TablesToDrop());
  }

  lemma TablesToDropListsEveryTable()
    ensures ListsEveryTable(TablesToDrop())
  {
    TablesToDropDistinct();
    EveryTableListed(TablesToDrop());
  }

  lemma TablesToDropDistinct()
    ensures NoDuplicates(TablesToDrop())
  {
  }

  /** The drop list is not the create list read backwards (Materials and Classes trade places), yet both are safe. */
  lemma DropListIsNotReversedCreateList()
    ensures TablesToDrop() != Reversed(Tables())
    ensures DropSafe(Reversed(Tables()))
  {
    assert Reversed(Tables())[5] == Classes;
    ReversedCreateOrderIsDropOrder(Tables());
  }

  lemma EveryTableListed(order: seq<TableName>)
    requires Classes in order && Materials in order && Servants in order && SkillLevels in order
    requires AscensionLevels in order && SkillCosts in order && AscensionCosts in order
    ensures forall t: TableName :: t in order
  {
    forall t: TableName ensures t in order {
      match t
      case Classes =>
      case Materials =>
      case Servants =>
      case SkillLevels =>
      case AscensionLevels =>
      case SkillCosts =>
      case AscensionCosts =>
    }
  }

  /** A list that names each table once names all of them. */
  lemma {:induction false} MembersOfCompleteList(order: seq<TableName>)
    requires ListsEveryTable(order)
    ensures Members(order) == AllTables
  {
    forall t | t in AllTables ensures t in Members(order) {
      assert t in order;
    }
  }

  // ---------------------------------------------------------------------------
  // The document object
  // ---------------------------------------------------------------------------

  class FgoData {
    var servants: map<int, Servant>
    var classes: map<int, Class>
    var materials: map<int, Material>
    var ascensionLevels: map<int, AscensionLevel>
    var ascensionCosts: map<int, AscensionCost>
    var skillLevels: map<int, SkillLevel>
    var skillCosts: map<int, SkillCost>

    /** The document the object currently holds. */
    function Snapshot(): Collections
      reads this
    {
      Collections(servants, classes, materials, ascensionLevels, ascensionCosts, skillLevels, skillCosts)
    }

    /** A document as decoded from its JSON file. */
    constructor (d: Collections)
      ensures Snapshot() == d
    {
      servants := d.servants;
      classes := d.classes;
      materials := d.materials;
      ascensionLevels := d.ascensionLevels;
      ascensionCosts := d.ascensionCosts;
      skillLevels := d.skillLevels;
      skillCosts := d.skillCosts;
    }

    /**
     * Deletes, in place, every skill level and then every ascension level whose
     * servant id is not a key of the servant map. Keys are visited in an
     * unspecified order.
     */
    method Clean()
      modifies this
      ensures Snapshot() == Cleaned(old(Snapshot()))
    {
      var todo := skillLevels.Keys;
      while todo != {}
        invariant todo <= old(skillLevels).Keys
        invariant skillLevels == KeptSkillLevels(old(skillLevels), servants, todo)
        invariant servants == old(servants) && ascensionLevels == old(ascensionLevels)
        invariant classes == old(classes) && materials == old(materials)
        invariant ascensionCosts == old(ascensionCosts) && skillCosts == old(skillCosts)
        decreases |todo|
      {
        Sets.NonEmptyHasMember(todo);
        var k :| k in todo;
        if skillLevels[k].servantId !in servants {
          skillLevels := skillLevels - {k};
        }
        todo := todo - {k};
      }
      todo := ascensionLevels.Keys;
      while todo != {}
        invariant todo <= old(ascensionLevels).Keys
        invariant ascensionLevels == KeptAscensionLevels(old(ascensionLevels), servants, todo)
        invariant skillLevels == KeptSkillLevels(old(skillLevels), servants, {})
        invariant servants == old(servants)
        invariant classes == old(classes) && materials == old(materials)
        invariant ascensionCosts == old(ascensionCosts) && skillCosts == old(skillCosts)
        decreases |todo|
      {
        Sets.NonEmptyHasMember(todo);
        var k :| k in todo;
        if ascensionLevels[k].servantId !in servants {
          ascensionLevels := ascensionLevels - {k};
        }
        todo := todo - {k};
      }
    }

    /** Drops the tables in the order of TablesToDrop, stopping at the first error. */
    method DropSchema(tx: Store, faults: set<Action>) returns (err: Option<Error>, tx': Store)
      ensures Outcome(err, tx') == Run(Drops(TablesToDrop()), tx, faults)
    {
      var order := TablesToDrop();
      tx' := tx;
      var i := 0;
      while i < |order|
        invariant 0 <= i <= |order|
        invariant Run(Drops(order), tx, faults) == Run(Drops(order)[i..], tx', faults)
      {
        assert Drops(order)[i..][1..] == Drops(order)[i + 1..];
        match Exec(Drop(order[i]), tx', faults) {
          case Err(e) =>
            return Some(e), tx';
          case Ok(next) =>
            tx' := next;
        }
        i := i + 1;
      }
      return None, tx';
    }

    /** Creates the tables in the order of Tables, stopping at the first error. */
    method CreateSchema(tx: Store, faults: set<Action>) returns (err: Option<Error>, tx': Store)
      ensures Outcome(err, tx') == Run(Creates(Tables()), tx, faults)
    {
      var order := Tables();
      tx' := tx;
      var i := 0;
      while i < |order|
        invariant 0 <= i <= |order|
        invariant Run(Creates(order), tx, faults) == Run(Creates(order)[i..], tx', faults)
      {
        assert Creates(order)[i..][1..] == Creates(order)[i + 1..];
        match Exec(Create(order[i]), tx', faults) {
          case Err(e) =>
            return Some(e), tx';
          case Ok(next) =>
            tx' := next;
        }
        i := i + 1;
      }
      return None, tx';
    }

    /**
     * Begins a transaction on `db`, drops and recreates the schema, and commits.
     * A failed step rolls back; the result of the commit is not looked at.
     */
    method ResetSchema(db: Store, faults: set<Action>) returns (err: Option<Error>, db': Store)
      ensures Outcome(err, db') == ResetOutcome(db, faults)
    {
      if Begin in faults {
        return Some(Refused(Begin)), db;
      }
      var tx := db;
      var dropErr, dropped := DropSchema(tx, faults);
      if dropErr.Some? {
        return dropErr, db;
      }
      var createErr, created := CreateSchema(dropped, faults);
      if createErr.Some? {
        return createErr, db;
      }
      db' := if Commit in faults then db else created;
      return None, db';
    }
  }

  /** What ResetSchema returns and what the database holds afterwards. */
  function ResetOutcome(db: Store, faults: set<Action>): (o: Outcome)
    ensures o.err.Some? ==> o.store == db
    ensures o.err.Some? ==> ActionOf(o.err.value) in [Begin] + Drops(TablesToDrop()) + Creates(Tables())
  {
    if Begin in faults then Outcome(Some(Refused(Begin)), db)
    else
      var dropped := Run(Drops(TablesToDrop()), db, faults);
      if dropped.err.Some? then Outcome(dropped.err, db)
      else
        var created := Run(Creates(Tables()), dropped.store, faults);
        if created.err.Some? then Outcome(created.err, db)
        else Outcome(None, if Commit in faults then db else created.store)
  }

  /** Whatever the database held, dropping the seven tables in TablesToDrop order succeeds and removes them all. */
  lemma {:induction false} DropSchemaClears(db: Store, faults: set<Action>)
    requires forall t :: Drop(t) !in faults
    ensures Run(Drops(TablesToDrop()), db, faults) == Outcome(None, map[])
  {
    TablesToDropIsDropOrder();
    DropsSucceed(TablesToDrop(), db, faults);
    MembersOfCompleteList(TablesToDrop());
    assert db - Members(TablesToDrop()) == map[];
  }

  /** Creating in Tables order into an empty database yields the seven empty tables. */
  lemma {:induction false} CreateSchemaBuilds(faults: set<Action>)
    requires forall t :: Create(t) !in faults
    ensures Run(Creates(Tables()), map[], faults) == Outcome(None, FreshSchema())
  {
    TablesIsCreateOrder();
    CreatesSucceed(Tables(), map[], faults);
    MembersOfCompleteList(Tables());
    EmptiedAllIsFresh(Members(Tables()));
  }

  lemma {:induction false} EmptiedAllIsFresh(ts: set<TableName>)
    requires ts == AllTables
    ensures WithEmpty(map[], ts) == FreshSchema()
  {
    var st := WithEmpty(map[], ts);
    assert st.Keys == FreshSchema().Keys;
    assert forall t :: t in st ==> st[t] == {};
  }

  /** With a cooperative database, a reset leaves exactly the seven empty tables, whatever was there before. */
  lemma {:induction false} ResetGivesFreshSchema(db: Store, faults: set<Action>)
    requires Begin !in faults && Commit !in faults
    requires forall t :: Drop(t) !in faults && Create(t) !in faults
    ensures ResetOutcome(db, faults) == Outcome(None, FreshSchema())
  {
    DropSchemaClears(db, faults);
    CreateSchemaBuilds(faults);
  }

  /** A refused commit goes unnoticed: the reset reports success and the database keeps its old tables. */
  lemma {:induction false} ResetIgnoresFailedCommit(db: Store, faults: set<Action>)
    requires Begin !in faults && Commit in faults
    requires forall t :: Drop(t) !in faults && Create(t) !in faults
    ensures ResetOutcome(db, faults) == Outcome(None, db)
  {
    DropSchemaClears(db, faults);
    CreateSchemaBuilds(faults);
  }

  /**
   * Reading and decoding the file are not modelled: `decoded` is their result.
   * A decoded document is cleaned before it is handed out.
   */
  method ImportData(decoded: Option<Collections>) returns (fgo: FgoData?)
    ensures decoded.None? <==> fgo == null
    ensures fgo != null ==> fresh(fgo) && fgo.Snapshot() == Cleaned(decoded.value)
  {
    if decoded.None? {
      return null;
    }
    fgo := new FgoData(decoded.value);
    fgo.Clean();
  }
}
