/**
 * What the seven entity files declare about their tables: the table names, the
 * foreign keys and UNIQUE constraints of each CREATE TABLE, the row tuple each
 * BatchInsert extracts from a map entry, and the constraints a set of rows must
 * satisfy. A table's contents are a set of rows; a store maps table names to them.
 */
module Schema {
  import opened Wrappers
  import opened Entities
  import Sets

  datatype TableName =
    | Classes | Materials | Servants | SkillLevels | AscensionLevels | SkillCosts | AscensionCosts

  const AllTables: set<TableName> :=
    {Classes, Materials, Servants, SkillLevels, AscensionLevels, SkillCosts, AscensionCosts}

  /** The tables named in a REFERENCES clause of each CREATE TABLE. */
  function References(t: TableName): (parents: set<TableName>)
    ensures t !in parents
    ensures parents <= AllTables
  {
    match t
    case Classes => {}
    case Materials => {}
    case Servants => {Classes}
    case SkillLevels => {Servants}
    case AscensionLevels => {Servants}
    case SkillCosts => {SkillLevels, Materials}
    case AscensionCosts => {AscensionLevels, Materials}
  }

  /**
   * One row tuple per table, with the columns in the order of the CopyIn column
   * list. `position` is the one nullable column; the loader always fills it.
   */
  datatype Row =
    | ClassRow(id: int, name: string, icon: string)
    | MaterialRow(id: int, name: string, icon: string, position: Option<int>)
    | ServantRow(id: int, name: string, icon: string, rarity: int, classId: int)
    | SkillLevelRow(id: int, servantId: int, levelTo: int)
    | AscensionLevelRow(id: int, servantId: int, ascendTo: int)
    | SkillCostRow(id: int, skillLevelId: int, materialId: int, amount: int)
    | AscensionCostRow(id: int, ascensionLevelId: int, materialId: int, amount: int)

  function TableOf(r: Row): TableName {
    match r
    case ClassRow(_, _, _) => Classes
    case MaterialRow(_, _, _, _) => Materials
    case ServantRow(_, _, _, _, _) => Servants
    case SkillLevelRow(_, _, _) => SkillLevels
    case AscensionLevelRow(_, _, _) => AscensionLevels
    case SkillCostRow(_, _, _, _) => SkillCosts
    case AscensionCostRow(_, _, _, _) => AscensionCosts
  }

  /** The contents of every table, as the engine holds them. */
  type Store = map<TableName, set<Row>>

  function Ids(rows: set<Row>): set<int> {
    set r | r in rows :: r.id
  }

  /** The keys of the document's map for table `t`. */
  function KeysOf(t: TableName, d: Collections): set<int> {
    match t
    case Classes => d.classes.Keys
    case Materials => d.materials.Keys
    case Servants => d.servants.Keys
    case SkillLevels => d.skillLevels.Keys
    case AscensionLevels => d.ascensionLevels.Keys
    case SkillCosts => d.skillCosts.Keys
    case AscensionCosts => d.ascensionCosts.Keys
  }

  /**
   * The tuple each BatchInsert feeds for each map entry: the map key as `id`,
   * then the record's fields in the column order of the CopyIn statement.
   */
  function RowsOf(t: TableName, d: Collections): (rows: map<int, Row>)
    ensures rows.Keys == KeysOf(t, d)
    ensures forall k :: k in rows ==> rows[k].id == k && TableOf(rows[k]) == t
  {
    match t
    case Classes => ClassTuples(d.classes)
    case Materials => MaterialTuples(d.materials)
    case Servants => ServantTuples(d.servants)
    case SkillLevels => SkillLevelTuples(d.skillLevels)
    case AscensionLevels => AscensionLevelTuples(d.ascensionLevels)
    case SkillCosts => SkillCostTuples(d.skillCosts)
    case AscensionCosts => AscensionCostTuples(d.ascensionCosts)
  }

  function ClassTuples(m: map<int, Class>): (rows: map<int, Row>)
    ensures rows.Keys == m.Keys && forall k :: k in rows ==> rows[k].ClassRow? && rows[k].id == k
  {
    map k | k in m :: ClassRow(k, m[k].name, m[k].icon)
  }

  /** `Order` goes into the `position` column. */
  function MaterialTuples(m: map<int, Material>): (rows: map<int, Row>)
    ensures rows.Keys == m.Keys && forall k :: k in rows ==> rows[k].MaterialRow? && rows[k].id == k
  {
    map k | k in m :: MaterialRow(k, m[k].name, m[k].icon, Some(m[k].order))
  }

  function ServantTuples(m: map<int, Servant>): (rows: map<int, Row>)
    ensures rows.Keys == m.Keys && forall k :: k in rows ==> rows[k].ServantRow? && rows[k].id == k
  {
    map k | k in m :: ServantRow(k, m[k].name, m[k].icon, m[k].rarity, m[k].classId)
  }

  function SkillLevelTuples(m: map<int, SkillLevel>): (rows: map<int, Row>)
    ensures rows.Keys == m.Keys && forall k :: k in rows ==> rows[k].SkillLevelRow? && rows[k].id == k
  {
    map k | k in m :: SkillLevelRow(k, m[k].servantId, m[k].levelTo)
  }

  function AscensionLevelTuples(m: map<int, AscensionLevel>): (rows: map<int, Row>)
    ensures rows.Keys == m.Keys && forall k :: k in rows ==> rows[k].AscensionLevelRow? && rows[k].id == k
  {
    map k | k in m :: AscensionLevelRow(k, m[k].servantId, m[k].ascendTo)
  }

  function SkillCostTuples(m: map<int, SkillCost>): (rows: map<int, Row>)
    ensures rows.Keys == m.Keys && forall k :: k in rows ==> rows[k].SkillCostRow? && rows[k].id == k
  {
    map k | k in m :: SkillCostRow(k, m[k].skillLevelId, m[k].materialId, m[k].amount)
  }

  function AscensionCostTuples(m: map<int, AscensionCost>): (rows: map<int, Row>)
    ensures rows.Keys == m.Keys && forall k :: k in rows ==> rows[k].AscensionCostRow? && rows[k].id == k
  {
    map k | k in m :: AscensionCostRow(k, m[k].ascensionLevelId, m[k].materialId, m[k].amount)
  }

  lemma ValueHasKey(m: map<int, Row>, r: Row)
    requires r in m.Values
    ensures exists k :: k in m && m[k] == r
  {
    if forall k :: k in m ==> m[k] != r {
      assert false;
    }
  }

  /** Taking one entry out of a map whose entries carry their own key as id takes exactly its row out of the values. */
  lemma {:induction false} RemoveKeyedEntry(m: map<int, Row>, k: int)
    requires forall j :: j in m ==> m[j].id == j
    requires k in m
    ensures m.Values == (m - {k}).Values + {m[k]}
    ensures m[k] !in (m - {k}).Values
  {
    var rest := m - {k};
    forall v | v in m.Values ensures v in rest.Values + {m[k]} {
      ValueHasKey(m, v);
      var j :| j in m && m[j] == v;
      if j != k { assert rest[j] == v; }
    }
    forall v | v in rest.Values ensures v in m.Values && v != m[k] {
      ValueHasKey(rest, v);
      var j :| j in rest && rest[j] == v;
      assert m[j] == v;
    }
  }

  /** A map whose entries carry their own key as id has as many distinct values as keys. */
  lemma {:induction false} KeyedValuesCount(m: map<int, Row>)
    requires forall k :: k in m ==> m[k].id == k
    ensures |m.Values| == |m.Keys|
    decreases |m.Keys|
  {
    if m == map[] {
      assert m.Values == {};
    } else {
      Sets.NonEmptyHasMember(m.Keys);
      var k :| k in m;
      var rest := m - {k};
      KeyedValuesCount(rest);
      RemoveKeyedEntry(m, k);
      assert m.Keys == rest.Keys + {k};
    }
  }

  /** The store a complete load of `d` produces: each table holds the rows of its map. */
  function Dumped(d: Collections): Store {
    map t | t in AllTables :: RowsOf(t, d).Values
  }

  // ---------------------------------------------------------------------------
  // Constraints declared by the CREATE TABLE statements
  // ---------------------------------------------------------------------------

  /** INTEGER and SERIAL columns hold 32-bit signed values. */
  predicate IsInteger(x: int) {
    -0x8000_0000 <= x < 0x8000_0000
  }

  /** TEXT columns cannot hold the NUL character, which a decoded JSON string can. */
  predicate IsText(s: string) {
    '\0' !in s
  }

  /** Every column value fits its column type. */
  predicate InRange(r: Row) {
    match r
    case ClassRow(id, name, icon) => IsInteger(id) && IsText(name) && IsText(icon)
    case MaterialRow(id, name, icon, position) =>
      IsInteger(id) && IsText(name) && IsText(icon) && (position.Some? ==> IsInteger(position.value))
    case ServantRow(id, name, icon, rarity, classId) =>
      IsInteger(id) && IsText(name) && IsText(icon) && IsInteger(rarity) && IsInteger(classId)
    case SkillLevelRow(id, servantId, levelTo) => IsInteger(id) && IsInteger(servantId) && IsInteger(levelTo)
    case AscensionLevelRow(id, servantId, ascendTo) =>
      IsInteger(id) && IsInteger(servantId) && IsInteger(ascendTo)
    case SkillCostRow(id, level, material, amount) =>
      IsInteger(id) && IsInteger(level) && IsInteger(material) && IsInteger(amount)
    case AscensionCostRow(id, level, material, amount) =>
      IsInteger(id) && IsInteger(level) && IsInteger(material) && IsInteger(amount)
  }

  /** The (referenced table, referenced id) pairs of a row's REFERENCES columns. */
  function ForeignKeys(r: Row): (fks: set<(TableName, int)>)
    ensures forall fk :: fk in fks ==> fk.0 in References(TableOf(r))
    ensures forall p :: p in References(TableOf(r)) ==> exists fk :: fk in fks && fk.0 == p
  {
    match r
    case ClassRow(_, _, _) => {}
    case MaterialRow(_, _, _, _) => {}
    case ServantRow(_, _, _, _, classId) => {(Classes, classId)}
    case SkillLevelRow(_, servantId, _) => {(Servants, servantId)}
    case AscensionLevelRow(_, servantId, _) => {(Servants, servantId)}
    case SkillCostRow(_, level, material, _) => {(SkillLevels, level), (Materials, material)}
    case AscensionCostRow(_, level, material, _) => {(AscensionLevels, level), (Materials, material)}
  }

  /** Every foreign key of `r` names an id present in the referenced table of `st`. */
  predicate Resolves(r: Row, st: Store) {
    forall fk :: fk in ForeignKeys(r) ==> fk.0 in st && fk.1 in Ids(st[fk.0])
  }

  /**
   * Two rows that may not share a table: equal primary keys or equal values of
   * a UNIQUE column or column group. A NULL position never collides.
   */
  predicate Conflicts(a: Row, b: Row) {
    match (a, b)
    case (ClassRow(i1, n1, c1), ClassRow(i2, n2, c2)) =>
      i1 == i2 || n1 == n2 || c1 == c2
    case (MaterialRow(i1, n1, c1, p1), MaterialRow(i2, n2, c2, p2)) =>
      i1 == i2 || n1 == n2 || c1 == c2 || (p1.Some? && p1 == p2)
    case (ServantRow(i1, n1, c1, r1, k1), ServantRow(i2, n2, c2, r2, k2)) =>
      i1 == i2 || c1 == c2 || (k1 == k2 && r1 == r2 && n1 == n2)
    case (SkillLevelRow(i1, s1, l1), SkillLevelRow(i2, s2, l2)) =>
      i1 == i2 || (s1 == s2 && l1 == l2)
    case (AscensionLevelRow(i1, s1, l1), AscensionLevelRow(i2, s2, l2)) =>
      i1 == i2 || (s1 == s2 && l1 == l2)
    case (SkillCostRow(i1, l1, m1, _), SkillCostRow(i2, l2, m2, _)) =>
      i1 == i2 || (l1 == l2 && m1 == m2)
    case (AscensionCostRow(i1, l1, m1, _), AscensionCostRow(i2, l2, m2, _)) =>
      i1 == i2 || (l1 == l2 && m1 == m2)
    case _ => false
  }

  /** The rows of one map satisfy every constraint of their table against `parents`. */
  predicate TableValid(rows: map<int, Row>, parents: Store) {
    && (forall k :: k in rows ==> InRange(rows[k]) && Resolves(rows[k], parents))
    && (forall k1, k2 :: k1 in rows && k2 in rows && k1 != k2 ==> !Conflicts(rows[k1], rows[k2]))
  }

  /** A document whose complete load satisfies every table's constraints. */
  predicate Consistent(d: Collections) {
    forall t :: TableValid(RowsOf(t, d), Dumped(d))
  }
}
