/**
 * The constraints of each CREATE TABLE restated over the document's own maps,
 * and the lemmas that connect them to the row tuples BatchInsert extracts:
 * the rows of a map satisfy their table's constraints exactly when the map
 * satisfies the entity-level rule, and the rows hold the map with nothing lost.
 */
module Descriptors {
  import opened Wrappers
  import opened Entities
  import opened Schema

  // ---------------------------------------------------------------------------
  // Entity-level statement of each table's constraints
  // ---------------------------------------------------------------------------

  /** classes: integer id; name and icon free of NUL; name unique; icon unique; no foreign key. */
  predicate ClassesValid(d: Collections) {
    && (forall k :: k in d.classes ==> IsInteger(k) && IsText(d.classes[k].name) && IsText(d.classes[k].icon))
    && (forall k1, k2 :: k1 in d.classes && k2 in d.classes && k1 != k2 ==>
          d.classes[k1].name != d.classes[k2].name && d.classes[k1].icon != d.classes[k2].icon)
  }

  /** materials: integer id and position; name and icon free of NUL; name, icon and position each unique; no foreign key. */
  predicate MaterialsValid(d: Collections) {
    && (forall k :: k in d.materials ==>
          && IsInteger(k) && IsInteger(d.materials[k].order)
          && IsText(d.materials[k].name) && IsText(d.materials[k].icon))
    && (forall k1, k2 :: k1 in d.materials && k2 in d.materials && k1 != k2 ==>
          && d.materials[k1].name != d.materials[k2].name
          && d.materials[k1].icon != d.materials[k2].icon
          && d.materials[k1].order != d.materials[k2].order)
  }

  /** servants: name and icon free of NUL; class id must be a class; icon unique; (class id, rarity, name) unique. */
  predicate ServantsValid(d: Collections) {
    && (forall k :: k in d.servants ==>
          && IsInteger(k) && IsInteger(d.servants[k].rarity) && IsInteger(d.servants[k].classId)
          && IsText(d.servants[k].name) && IsText(d.servants[k].icon)
          && d.servants[k].classId in d.classes)
    && (forall k1, k2 :: k1 in d.servants && k2 in d.servants && k1 != k2 ==>
          && d.servants[k1].icon != d.servants[k2].icon
          && (d.servants[k1].classId, d.servants[k1].rarity, d.servants[k1].name)
             != (d.servants[k2].classId, d.servants[k2].rarity, d.servants[k2].name))
  }

  /** skill_levels: servant id must be a servant; (servant id, level to) unique. */
  predicate SkillLevelsValid(d: Collections) {
    && (forall k :: k in d.skillLevels ==>
          && IsInteger(k) && IsInteger(d.skillLevels[k].servantId) && IsInteger(d.skillLevels[k].levelTo)
          && d.skillLevels[k].servantId in d.servants)
    && (forall k1, k2 :: k1 in d.skillLevels && k2 in d.skillLevels && k1 != k2 ==>
          (d.skillLevels[k1].servantId, d.skillLevels[k1].levelTo)
          != (d.skillLevels[k2].servantId, d.skillLevels[k2].levelTo))
  }

  /** ascension_levels: servant id must be a servant; (servant id, ascend to) unique. */
  predicate AscensionLevelsValid(d: Collections) {
    && (forall k :: k in d.ascensionLevels ==>
          && IsInteger(k) && IsInteger(d.ascensionLevels[k].servantId)
          && IsInteger(d.ascensionLevels[k].ascendTo)
          && d.ascensionLevels[k].servantId in d.servants)
    && (forall k1, k2 :: k1 in d.ascensionLevels && k2 in d.ascensionLevels && k1 != k2 ==>
          (d.ascensionLevels[k1].servantId, d.ascensionLevels[k1].ascendTo)
          != (d.ascensionLevels[k2].servantId, d.ascensionLevels[k2].ascendTo))
  }

  /** skill_costs: level and material must exist; (level, material) unique; amount not unique. */
  predicate SkillCostsValid(d: Collections) {
    && (forall k :: k in d.skillCosts ==>
          && IsInteger(k) && IsInteger(d.skillCosts[k].skillLevelId)
          && IsInteger(d.skillCosts[k].materialId) && IsInteger(d.skillCosts[k].amount)
          && d.skillCosts[k].skillLevelId in d.skillLevels
          && d.skillCosts[k].materialId in d.materials)
    && (forall k1, k2 :: k1 in d.skillCosts && k2 in d.skillCosts && k1 != k2 ==>
          (d.skillCosts[k1].skillLevelId, d.skillCosts[k1].materialId)
          != (d.skillCosts[k2].skillLevelId, d.skillCosts[k2].materialId))
  }

  /** ascension_costs: level and material must exist; (level, material) unique. */
  predicate AscensionCostsValid(d: Collections) {
    && (forall k :: k in d.ascensionCosts ==>
          && IsInteger(k) && IsInteger(d.ascensionCosts[k].ascensionLevelId)
          && IsInteger(d.ascensionCosts[k].materialId) && IsInteger(d.ascensionCosts[k].amount)
          && d.ascensionCosts[k].ascensionLevelId in d.ascensionLevels
          && d.ascensionCosts[k].materialId in d.materials)
    && (forall k1, k2 :: k1 in d.ascensionCosts && k2 in d.ascensionCosts && k1 != k2 ==>
          (d.ascensionCosts[k1].ascensionLevelId, d.ascensionCosts[k1].materialId)
          != (d.ascensionCosts[k2].ascensionLevelId, d.ascensionCosts[k2].materialId))
  }

  predicate DocumentValid(d: Collections) {
    && ClassesValid(d) && MaterialsValid(d) && ServantsValid(d)
    && SkillLevelsValid(d) && AscensionLevelsValid(d)
    && SkillCostsValid(d) && AscensionCostsValid(d)
  }

  // ---------------------------------------------------------------------------
  // Rows and maps carry the same information
  // ---------------------------------------------------------------------------

  /** The ids stored in a loaded table are exactly the keys of its map. */
  lemma {:induction false} IdsOfDumped(d: Collections, t: TableName)
    ensures t in Dumped(d) && Ids(Dumped(d)[t]) == KeysOf(t, d)
  {
    var rows := RowsOf(t, d);
    forall k | k in KeysOf(t, d) ensures k in Ids(Dumped(d)[t]) {
      assert rows[k] in rows.Values;
    }
  }

  /** A row's foreign keys resolve in a complete load exactly when the referenced keys exist. */
  lemma {:induction false} ResolvesInDumped(d: Collections, r: Row)
    ensures Resolves(r, Dumped(d)) <==> forall fk :: fk in ForeignKeys(r) ==> fk.1 in KeysOf(fk.0, d)
  {
    forall fk | fk in ForeignKeys(r) ensures fk.0 in Dumped(d) && Ids(Dumped(d)[fk.0]) == KeysOf(fk.0, d) {
      IdsOfDumped(d, fk.0);
    }
  }

  lemma {:induction false} ClassesTableValid(d: Collections)
    ensures TableValid(RowsOf(Classes, d), Dumped(d)) <==> ClassesValid(d)
  {
  }

  lemma {:induction false} MaterialsTableValid(d: Collections)
    ensures TableValid(RowsOf(Materials, d), Dumped(d)) <==> MaterialsValid(d)
  {
  }

  lemma {:induction false} ServantsTableValid(d: Collections)
    ensures TableValid(RowsOf(Servants, d), Dumped(d)) <==> ServantsValid(d)
  {
    var rows := RowsOf(Servants, d);
    forall k | k in rows ensures Resolves(rows[k], Dumped(d)) <==> d.servants[k].classId in d.classes {
      ResolvesInDumped(d, rows[k]);
      assert ForeignKeys(rows[k]) == {(Classes, d.servants[k].classId)};
    }
  }

  lemma {:induction false} SkillLevelsTableValid(d: Collections)
    ensures TableValid(RowsOf(SkillLevels, d), Dumped(d)) <==> SkillLevelsValid(d)
  {
    var rows := RowsOf(SkillLevels, d);
    forall k | k in rows ensures Resolves(rows[k], Dumped(d)) <==> d.skillLevels[k].servantId in d.servants {
      ResolvesInDumped(d, rows[k]);
      assert ForeignKeys(rows[k]) == {(Servants, d.skillLevels[k].servantId)};
    }
  }

  lemma {:induction false} AscensionLevelsTableValid(d: Collections)
    ensures TableValid(RowsOf(AscensionLevels, d), Dumped(d)) <==> AscensionLevelsValid(d)
  {
    var rows := RowsOf(AscensionLevels, d);
    forall k | k in rows
      ensures Resolves(rows[k], Dumped(d)) <==> d.ascensionLevels[k].servantId in d.servants
    {
      ResolvesInDumped(d, rows[k]);
      assert ForeignKeys(rows[k]) == {(Servants, d.ascensionLevels[k].servantId)};
    }
  }

  lemma {:induction false} SkillCostsTableValid(d: Collections)
    ensures TableValid(RowsOf(SkillCosts, d), Dumped(d)) <==> SkillCostsValid(d)
  {
    var rows := RowsOf(SkillCosts, d);
    forall k | k in rows
      ensures Resolves(rows[k], Dumped(d)) <==>
        d.skillCosts[k].skillLevelId in d.skillLevels && d.skillCosts[k].materialId in d.materials
    {
      SkillCostResolves(d, k);
    }
  }

  lemma {:induction false} SkillCostResolves(d: Collections, k: int)
    requires k in d.skillCosts
    ensures k in RowsOf(SkillCosts, d)
    ensures Resolves(RowsOf(SkillCosts, d)[k], Dumped(d)) <==>
      d.skillCosts[k].skillLevelId in d.skillLevels && d.skillCosts[k].materialId in d.materials
  {
    var r := RowsOf(SkillCosts, d)[k];
    ResolvesInDumped(d, r);
    var c := d.skillCosts[k];
    assert ForeignKeys(r) == {(SkillLevels, c.skillLevelId), (Materials, c.materialId)};
  }

  lemma {:induction false} AscensionCostsTableValid(d: Collections)
    ensures TableValid(RowsOf(AscensionCosts, d), Dumped(d)) <==> AscensionCostsValid(d)
  {
    var rows := RowsOf(AscensionCosts, d);
    forall k | k in rows
      ensures Resolves(rows[k], Dumped(d)) <==>
        d.ascensionCosts[k].ascensionLevelId in d.ascensionLevels && d.ascensionCosts[k].materialId in d.materials
    {
      AscensionCostResolves(d, k);
    }
  }

  lemma {:induction false} AscensionCostResolves(d: Collections, k: int)
    requires k in d.ascensionCosts
    ensures k in RowsOf(AscensionCosts, d)
    ensures Resolves(RowsOf(AscensionCosts, d)[k], Dumped(d)) <==>
      d.ascensionCosts[k].ascensionLevelId in d.ascensionLevels && d.ascensionCosts[k].materialId in d.materials
  {
    var r := RowsOf(AscensionCosts, d)[k];
    ResolvesInDumped(d, r);
    var c := d.ascensionCosts[k];
    assert ForeignKeys(r) == {(AscensionLevels, c.ascensionLevelId), (Materials, c.materialId)};
  }

  /** The row-level constraints of all seven tables hold exactly when the document is valid. */
  lemma {:induction false} ConsistentIffValid(d: Collections)
    ensures Consistent(d) <==> DocumentValid(d)
  {
    ClassesTableValid(d);
    MaterialsTableValid(d);
    ServantsTableValid(d);
    SkillLevelsTableValid(d);
    AscensionLevelsTableValid(d);
    SkillCostsTableValid(d);
    AscensionCostsTableValid(d);
    if DocumentValid(d) {
      forall t ensures TableValid(RowsOf(t, d), Dumped(d)) {
        match t
        case Classes =>
        case Materials =>
        case Servants =>
        case SkillLevels =>
        case AscensionLevels =>
        case SkillCosts =>
        case AscensionCosts =>
      }
    }
  }

  // ---------------------------------------------------------------------------
  // One row per entry, and the rows give the maps back
  // ---------------------------------------------------------------------------

  /** The primary key: no two rows of a table share an id. */
  predicate UniqueIds(rows: set<Row>) {
    forall r1, r2 :: r1 in rows && r2 in rows && r1.id == r2.id ==> r1 == r2
  }

  function TableRows(st: Store, t: TableName): set<Row> {
    if t in st then st[t] else {}
  }

  function ServantsOf(rows: set<Row>): map<int, Servant>
    requires UniqueIds(rows)
  {
    map r | r in rows && r.ServantRow? :: r.id := Servant(r.name, r.rarity, r.icon, r.classId)
  }

  function ClassesOf(rows: set<Row>): map<int, Class>
    requires UniqueIds(rows)
  {
    map r | r in rows && r.ClassRow? :: r.id := Class(r.name, r.icon)
  }

  /** A NULL position cannot be read back into a `Material`; the loader never writes one. */
  function MaterialsOf(rows: set<Row>): map<int, Material>
    requires UniqueIds(rows)
  {
    map r | r in rows && r.MaterialRow? && r.position.Some? :: r.id := Material(r.name, r.icon, r.position.value)
  }

  function SkillLevelsOf(rows: set<Row>): map<int, SkillLevel>
    requires UniqueIds(rows)
  {
    map r | r in rows && r.SkillLevelRow? :: r.id := SkillLevel(r.levelTo, r.servantId)
  }

  function AscensionLevelsOf(rows: set<Row>): map<int, AscensionLevel>
    requires UniqueIds(rows)
  {
    map r | r in rows && r.AscensionLevelRow? :: r.id := AscensionLevel(r.ascendTo, r.servantId)
  }

  function SkillCostsOf(rows: set<Row>): map<int, SkillCost>
    requires UniqueIds(rows)
  {
    map r | r in rows && r.SkillCostRow? :: r.id := SkillCost(r.skillLevelId, r.materialId, r.amount)
  }

  function AscensionCostsOf(rows: set<Row>): map<int, AscensionCost>
    requires UniqueIds(rows)
  {
    map r | r in rows && r.AscensionCostRow? :: r.id := AscensionCost(r.ascensionLevelId, r.materialId, r.amount)
  }

  /** Reads a document back from the tables of a store, column by column. */
  function Restore(st: Store): Collections
    requires forall t :: UniqueIds(TableRows(st, t))
  {
    assert UniqueIds(TableRows(st, Servants)) && UniqueIds(TableRows(st, Classes));
    assert UniqueIds(TableRows(st, Materials)) && UniqueIds(TableRows(st, AscensionLevels));
    assert UniqueIds(TableRows(st, AscensionCosts)) && UniqueIds(TableRows(st, SkillLevels));
    assert UniqueIds(TableRows(st, SkillCosts));
    Collections(
      ServantsOf(TableRows(st, Servants)), ClassesOf(TableRows(st, Classes)),
      MaterialsOf(TableRows(st, Materials)), AscensionLevelsOf(TableRows(st, AscensionLevels)),
      AscensionCostsOf(TableRows(st, AscensionCosts)), SkillLevelsOf(TableRows(st, SkillLevels)),
      SkillCostsOf(TableRows(st, SkillCosts)))
  }

  lemma {:induction false} DumpedUniqueIds(d: Collections)
    ensures forall t :: UniqueIds(TableRows(Dumped(d), t)) && TableRows(Dumped(d), t) == RowsOf(t, d).Values
  {
    forall t ensures UniqueIds(TableRows(Dumped(d), t)) && TableRows(Dumped(d), t) == RowsOf(t, d).Values {
      var rows := RowsOf(t, d);
      assert TableRows(Dumped(d), t) == rows.Values;
      forall r1, r2 | r1 in rows.Values && r2 in rows.Values && r1.id == r2.id ensures r1 == r2 {
        var k1 :| k1 in rows && rows[k1] == r1;
        var k2 :| k2 in rows && rows[k2] == r2;
      }
    }
  }

  lemma {:induction false} ServantsRoundTrip(d: Collections)
    ensures UniqueIds(RowsOf(Servants, d).Values) && ServantsOf(RowsOf(Servants, d).Values) == d.servants
  {
    DumpedUniqueIds(d);
    var rows := RowsOf(Servants, d);
    forall k | k in d.servants ensures k in ServantsOf(rows.Values) {
      assert rows[k] in rows.Values;
    }
  }

  lemma {:induction false} ClassesRoundTrip(d: Collections)
    ensures UniqueIds(RowsOf(Classes, d).Values) && ClassesOf(RowsOf(Classes, d).Values) == d.classes
  {
    DumpedUniqueIds(d);
    var rows := RowsOf(Classes, d);
    forall k | k in d.classes ensures k in ClassesOf(rows.Values) {
      assert rows[k] in rows.Values;
    }
  }

  lemma {:induction false} MaterialsRoundTrip(d: Collections)
    ensures UniqueIds(RowsOf(Materials, d).Values) && MaterialsOf(RowsOf(Materials, d).Values) == d.materials
  {
    DumpedUniqueIds(d);
    var rows := RowsOf(Materials, d);
    forall k | k in d.materials ensures k in MaterialsOf(rows.Values) {
      assert rows[k] in rows.Values;
    }
  }

  lemma {:induction false} SkillLevelsRoundTrip(d: Collections)
    ensures UniqueIds(RowsOf(SkillLevels, d).Values) && SkillLevelsOf(RowsOf(SkillLevels, d).Values) == d.skillLevels
  {
    DumpedUniqueIds(d);
    var rows := RowsOf(SkillLevels, d);
    forall k | k in d.skillLevels ensures k in SkillLevelsOf(rows.Values) {
      assert rows[k] in rows.Values;
    }
  }

  lemma {:induction false} AscensionLevelsRoundTrip(d: Collections)
    ensures UniqueIds(RowsOf(AscensionLevels, d).Values)
    ensures AscensionLevelsOf(RowsOf(AscensionLevels, d).Values) == d.ascensionLevels
  {
    DumpedUniqueIds(d);
    var rows := RowsOf(AscensionLevels, d);
    forall k | k in d.ascensionLevels ensures k in AscensionLevelsOf(rows.Values) {
      assert rows[k] in rows.Values;
    }
  }

  lemma {:induction false} SkillCostsRoundTrip(d: Collections)
    ensures UniqueIds(RowsOf(SkillCosts, d).Values) && SkillCostsOf(RowsOf(SkillCosts, d).Values) == d.skillCosts
  {
    DumpedUniqueIds(d);
    var rows := RowsOf(SkillCosts, d);
    forall k | k in d.skillCosts ensures k in SkillCostsOf(rows.Values) {
      assert rows[k] in rows.Values;
    }
  }

  lemma {:induction false} AscensionCostsRoundTrip(d: Collections)
    ensures UniqueIds(RowsOf(AscensionCosts, d).Values)
    ensures AscensionCostsOf(RowsOf(AscensionCosts, d).Values) == d.ascensionCosts
  {
    DumpedUniqueIds(d);
    var rows := RowsOf(AscensionCosts, d);
    forall k | k in d.ascensionCosts ensures k in AscensionCostsOf(rows.Values) {
      assert rows[k] in rows.Values;
    }
  }

  /** Loading a document and reading the tables back gives the same document: no column is lost or swapped. */
  lemma {:induction false} RestoreDumped(d: Collections)
    ensures forall t :: UniqueIds(TableRows(Dumped(d), t))
    ensures Restore(Dumped(d)) == d
  {
    DumpedUniqueIds(d);
    ServantsRoundTrip(d);
    ClassesRoundTrip(d);
    MaterialsRoundTrip(d);
    SkillLevelsRoundTrip(d);
    AscensionLevelsRoundTrip(d);
    SkillCostsRoundTrip(d);
    AscensionCostsRoundTrip(d);
  }

  /** BatchInsert feeds exactly one distinct tuple per map entry. */
  lemma {:induction false} OneRowPerEntry(d: Collections, t: TableName)
    ensures t in Dumped(d) && |Dumped(d)[t]| == |KeysOf(t, d)|
  {
    KeyedValuesCount(RowsOf(t, d));
  }
}
