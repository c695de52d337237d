/**
 * Feeding one map's tuples into a COPY statement, and loading several tables
 * one after the other in the same transaction.
 */
module BulkLoad {
  import opened Wrappers
  import opened Entities
  import opened Schema
  import opened Engine
  import Sets

  /** The rows keyed by `done` satisfy, together with table `t` of `st`, every constraint of the table. */
  predicate Accepted(t: TableName, rows: map<int, Row>, done: set<int>, st: Store) {
    && t in st
    && done <= rows.Keys
    && (forall k :: k in done ==>
          InRange(rows[k]) && Resolves(rows[k], st) && forall x :: x in st[t] ==> !Conflicts(rows[k], x))
    && (forall k1, k2 :: k1 in done && k2 in done && k1 != k2 ==> !Conflicts(rows[k1], rows[k2]))
  }

  /** The whole batch fits into table `t` of `st`, whatever order its rows arrive in. */
  predicate BatchValid(t: TableName, rows: map<int, Row>, st: Store) {
    Accepted(t, rows, rows.Keys, st)
  }

  /** `r` may join its table in `st`: the values fit, the references resolve, nothing there collides. */
  predicate Admissible(r: Row, st: Store) {
    && TableOf(r) in st
    && InRange(r)
    && Resolves(r, st)
    && forall x :: x in st[TableOf(r)] ==> !Conflicts(r, x)
  }

  /** The store after a successful COPY of `d`'s map into table `t`. */
  function Loaded(st: Store, t: TableName, d: Collections): (st': Store)
    requires t in st
    ensures st'.Keys == st.Keys && st'[t] == st[t] + RowsOf(t, d).Values
    ensures forall u :: u in st && u != t ==> st'[u] == st[u]
  {
    st[t := st[t] + RowsOf(t, d).Values]
  }

  function Placed(rows: map<int, Row>, done: set<int>): set<Row>
    requires done <= rows.Keys
  {
    set k | k in done :: rows[k]
  }

  function IdsOf(fed: seq<Row>): set<int> {
    set r | r in fed :: r.id
  }

  lemma ConflictsSymmetric(a: Row, b: Row)
    ensures Conflicts(a, b) == Conflicts(b, a)
  {
  }

  /** No table references itself, so adding rows to a row's own table does not change whether it resolves. */
  lemma {:induction false} ResolvesOwnTableIrrelevant(r: Row, st: Store, rows: set<Row>)
    ensures Resolves(r, st[TableOf(r) := rows]) <==> Resolves(r, st)
  {
    forall fk | fk in ForeignKeys(r) ensures fk.0 != TableOf(r) {
      assert fk.0 in References(TableOf(r));
    }
  }

  /** Feeding the next row succeeds exactly when the rows fed so far plus that row are still accepted. */
  lemma {:induction false} AcceptStep(t: TableName, rows: map<int, Row>, done: set<int>, st: Store, k: int)
    requires Accepted(t, rows, done, st)
    requires k in rows && k !in done
    requires forall j :: j in rows ==> rows[j].id == j && TableOf(rows[j]) == t
    ensures Admissible(rows[k], st[t := st[t] + Placed(rows, done)]) <==> Accepted(t, rows, done + {k}, st)
  {
    var table := st[t] + Placed(rows, done);
    var r := rows[k];
    ResolvesOwnTableIrrelevant(r, st, table);
    if Admissible(r, st[t := table]) {
      forall j | j in done ensures !Conflicts(rows[j], r) && !Conflicts(r, rows[j]) {
        assert rows[j] in table;
        ConflictsSymmetric(r, rows[j]);
      }
    }
    if Accepted(t, rows, done + {k}, st) {
      forall x | x in table ensures !Conflicts(r, x) {
        if x !in st[t] {
          var j :| j in done && rows[j] == x;
        }
      }
    }
  }

  lemma AcceptedSubset(t: TableName, rows: map<int, Row>, some: set<int>, more: set<int>, st: Store)
    requires some <= more
    ensures Accepted(t, rows, more, st) ==> Accepted(t, rows, some, st)
  {
  }

  lemma {:induction false} PlacedAll(rows: map<int, Row>)
    ensures Placed(rows, rows.Keys) == rows.Values
  {
    forall r | r in rows.Values ensures r in Placed(rows, rows.Keys) {
      ValueHasKey(rows, r);
    }
  }

  /** Each fed row is the tuple of its key's entry, and no tuple is fed twice. */
  predicate FedFrom(rows: map<int, Row>, fed: seq<Row>) {
    && (forall i :: 0 <= i < |fed| ==> fed[i].id in rows && fed[i] == rows[fed[i].id])
    && (forall i, j :: 0 <= i < j < |fed| ==> fed[i] != fed[j])
  }

  /** The state of the feeding loop: the keys not in `todo` are fed, accepted and in the table. */
  ghost predicate Feeding(t: TableName, rows: map<int, Row>, tx: Store, todo: set<int>, fed: seq<Row>, table: set<Row>) {
    && todo <= rows.Keys
    && IdsOf(fed) == rows.Keys - todo
    && Accepted(t, rows, rows.Keys - todo, tx)
    && table == tx[t] + Placed(rows, rows.Keys - todo)
    && FedFrom(rows, fed)
  }

  /** Feeding the row of a fresh key keeps the fed rows distinct and adds exactly that key. */
  lemma {:induction false} FeedStep(rows: map<int, Row>, fed: seq<Row>, done: set<int>, k: int)
    requires k in rows && k !in done && done <= rows.Keys
    requires forall j :: j in rows ==> rows[j].id == j
    requires IdsOf(fed) == done && FedFrom(rows, fed)
    ensures IdsOf(fed + [rows[k]]) == done + {k}
    ensures (fed + [rows[k]])[..|fed|] == fed
    ensures FedFrom(rows, fed + [rows[k]])
    ensures Placed(rows, done + {k}) == Placed(rows, done) + {rows[k]}
  {
    var fed' := fed + [rows[k]];
    assert forall x :: x in fed' <==> x in fed || x == rows[k];
    forall i | 0 <= i < |fed| ensures fed[i] != rows[k] {
      assert fed[i] in fed;
      assert fed[i].id in done;
    }
  }

  /** An admissible row extends the loop state; a refused one is the first the table cannot take. */
  lemma {:induction false} FeedNext(t: TableName, rows: map<int, Row>, tx: Store, todo: set<int>, fed: seq<Row>, table: set<Row>, k: int)
    requires forall j :: j in rows ==> rows[j].id == j && TableOf(rows[j]) == t
    requires Feeding(t, rows, tx, todo, fed, table) && k in todo
    ensures Admissible(rows[k], tx[t := table]) ==> Feeding(t, rows, tx, todo - {k}, fed + [rows[k]], table + {rows[k]})
    ensures !Admissible(rows[k], tx[t := table]) ==>
      && (fed + [rows[k]])[..|fed|] == fed
      && IdsOf(fed + [rows[k]]) == IdsOf(fed) + {k}
      && Accepted(t, rows, IdsOf(fed), tx)
      && !Accepted(t, rows, IdsOf(fed + [rows[k]]), tx)
      && !BatchValid(t, rows, tx)
      && FedFrom(rows, fed + [rows[k]])
  {
    var done := rows.Keys - todo;
    AcceptStep(t, rows, done, tx, k);
    FeedStep(rows, fed, done, k);
    AcceptedSubset(t, rows, done + {k}, rows.Keys, tx);
    assert rows.Keys - (todo - {k}) == done + {k};
  }

  /** Once every key is fed, the whole batch was accepted and the table holds all of it. */
  lemma {:induction false} FeedDone(t: TableName, rows: map<int, Row>, tx: Store, fed: seq<Row>, table: set<Row>)
    requires Feeding(t, rows, tx, {}, fed, table)
    ensures BatchValid(t, rows, tx) && table == tx[t] + rows.Values && IdsOf(fed) == rows.Keys && FedFrom(rows, fed)
  {
    assert rows.Keys - {} == rows.Keys;
    PlacedAll(rows);
  }

  /**
   * The loop of a BatchInsert: feed the tuple of every map entry, in an
   * unspecified order, and stop at the first row the table refuses. `fed` is
   * what reached the statement, the refused row last.
   */
  method Feed(t: TableName, rows: map<int, Row>, tx: Store) returns (rejected: Option<int>, fed: seq<Row>, table: set<Row>)
    requires t in tx
    requires forall j :: j in rows ==> rows[j].id == j && TableOf(rows[j]) == t
    ensures rejected.None? <==> BatchValid(t, rows, tx)
    ensures rejected.None? ==> table == tx[t] + rows.Values && IdsOf(fed) == rows.Keys
    ensures FedFrom(rows, fed)
    ensures rejected.Some? ==>
      && |fed| > 0 && fed[|fed| - 1].id == rejected.value && rejected.value in rows
      && Accepted(t, rows, IdsOf(fed[..|fed| - 1]), tx)
      && !Accepted(t, rows, IdsOf(fed), tx)
  {
    fed := [];
    rejected := None;
    var todo := rows.Keys;
    table := tx[t];
    assert Placed(rows, rows.Keys - todo) == {};
    while todo != {}
      invariant Feeding(t, rows, tx, todo, fed, table)
      decreases |todo|
    {
      Sets.NonEmptyHasMember(todo);
      var k :| k in todo;
      var r := rows[k];
      FeedNext(t, rows, tx, todo, fed, table, k);
      fed := fed + [r];
      if !Admissible(r, tx[t := table]) {
        rejected := Some(k);
        break;
      }
      table := table + {r};
      todo := todo - {k};
    }
    if rejected.None? {
      FeedDone(t, rows, tx, fed, table);
    }
  }

  /** Feeds the tuples of `d`'s map for table `t`; only whether the batch was accepted and the new store matter here. */
  method FeedAll(t: TableName, d: Collections, tx: Store) returns (rejected: Option<int>, tx': Store)
    requires t in tx
    ensures rejected.Some? ==> rejected.value in KeysOf(t, d)
    ensures rejected.None? ==> tx' == Loaded(tx, t, d)
    ensures rejected.None? <==> BatchValid(t, RowsOf(t, d), tx)
  {
    var fed, table;
    rejected, fed, table := Feed(t, RowsOf(t, d), tx);
    tx' := tx[t := table];
  }

  /**
   * One BatchInsert: prepare the COPY into `t`, then feed one tuple per entry
   * of `d`'s map for that table.
   */
  method BatchInsert(t: TableName, d: Collections, tx: Store, faults: set<Action>)
    returns (err: Option<Error>, tx': Store)
    ensures err.Some? ==> ActionOf(err.value) == Copy(t) && tx' == tx
    ensures err.Some? && err.value.RowRejected? ==> err.value.key in KeysOf(t, d)
    ensures err.None? ==> t in tx && tx' == Loaded(tx, t, d)
    ensures err.None? <==> Copy(t) !in faults && BatchValid(t, RowsOf(t, d), tx)
  {
    tx' := tx;
    if Copy(t) in faults {
      err := Some(Refused(Copy(t)));
    } else if t !in tx {
      err := Some(NoSuchTable(t));
    } else {
      var rejected, loaded := FeedAll(t, d, tx);
      if rejected.Some? {
        err := Some(RowRejected(t, rejected.value));
      } else {
        err, tx' := None, loaded;
      }
    }
  }


  // ---------------------------------------------------------------------------
  // Several loads in one transaction
  // ---------------------------------------------------------------------------

  /** Loads `d`'s maps table by table in `order`, stopping at the first COPY that fails. */
  function LoadAll(order: seq<TableName>, d: Collections, st: Store, faults: set<Action>): (r: Report)
    ensures r.failed.Some? ==> r.failed.value.Copy? && r.failed.value.table in order
    decreases |order|
  {
    if order == [] then Report(None, st)
    else
      var t := order[0];
      if Copy(t) in faults || !BatchValid(t, RowsOf(t, d), st) then Report(Some(Copy(t)), st)
      else LoadAll(order[1..], d, Loaded(st, t, d), faults)
  }

  /**
   * The loads of `order` stopped at its `i`-th table with report `r`: the tables
   * before it were loaded and left `r.store`, and that table's COPY was refused
   * or its batch did not fit.
   */
  predicate StoppedAt(order: seq<TableName>, d: Collections, st: Store, faults: set<Action>, i: int, r: Report) {
    && 0 <= i < |order|
    && r.failed == Some(Copy(order[i]))
    && LoadAll(order[..i], d, st, faults) == Report(None, r.store)
    && (Copy(order[i]) in faults || !BatchValid(order[i], RowsOf(order[i], d), r.store))
  }

  lemma {:induction false} StoppedLater(order: seq<TableName>, d: Collections, st: Store, faults: set<Action>, i: int, r: Report)
    requires order != [] && Copy(order[0]) !in faults && BatchValid(order[0], RowsOf(order[0], d), st)
    requires StoppedAt(order[1..], d, Loaded(st, order[0], d), faults, i, r)
    ensures StoppedAt(order, d, st, faults, i + 1, r)
  {
    assert order[..i + 1][1..] == order[1..][..i];
    assert order[i + 1] == order[1..][i];
  }

  /**
   * A failed load stopped at one table of the order: every table before it was
   * loaded, the store reported is what those loads left, and that table's COPY
   * was refused or its batch did not fit.
   */
  lemma {:induction false} LoadAllStopsAtFailure(order: seq<TableName>, d: Collections, st: Store, faults: set<Action>)
    ensures var r := LoadAll(order, d, st, faults);
      r.failed.Some? ==> exists i :: StoppedAt(order, d, st, faults, i, r)
    decreases |order|
  {
    var r := LoadAll(order, d, st, faults);
    if r.failed.Some? {
      var t := order[0];
      if Copy(t) in faults || !BatchValid(t, RowsOf(t, d), st) {
        assert order[..0] == [];
        assert StoppedAt(order, d, st, faults, 0, r);
      } else {
        var next := Loaded(st, t, d);
        LoadAllStopsAtFailure(order[1..], d, next, faults);
        var i :| StoppedAt(order[1..], d, next, faults, i, r);
        StoppedLater(order, d, st, faults, i, r);
      }
    }
  }

  /** After a failed load nothing later in the order is attempted. */
  lemma {:induction false} LoadAllAppend(o1: seq<TableName>, o2: seq<TableName>, d: Collections, st: Store, faults: set<Action>)
    ensures LoadAll(o1 + o2, d, st, faults) ==
      var r := LoadAll(o1, d, st, faults); if r.failed.Some? then r else LoadAll(o2, d, r.store, faults)
    decreases |o1|
  {
    if o1 == [] {
      assert o1 + o2 == o2;
    } else {
      assert (o1 + o2)[0] == o1[0];
      assert (o1 + o2)[1..] == o1[1..] + o2;
      var t := o1[0];
      if !(Copy(t) in faults || !BatchValid(t, RowsOf(t, d), st)) {
        LoadAllAppend(o1[1..], o2, d, Loaded(st, t, d), faults);
      }
    }
  }

  /** The first table of `order` whose complete contents break one of its constraints. */
  function FirstInvalid(order: seq<TableName>, d: Collections): (r: Option<TableName>)
    ensures r.None? <==> forall t :: t in order ==> TableValid(RowsOf(t, d), Dumped(d))
    ensures r.Some? ==> r.value in order && !TableValid(RowsOf(r.value, d), Dumped(d))
    ensures r.Some? ==> forall i :: 0 <= i < IndexOf(order, r.value) ==> TableValid(RowsOf(order[i], d), Dumped(d))
    decreases |order|
  {
    if order == [] then None
    else if !TableValid(RowsOf(order[0], d), Dumped(d)) then Some(order[0])
    else FirstInvalid(order[1..], d)
  }

  /** The tables of `loaded` hold their complete rows, the other tables exist and are empty. */
  function Partial(d: Collections, loaded: set<TableName>): Store {
    map t | t in AllTables :: if t in loaded then RowsOf(t, d).Values else {}
  }

  /** A table loaded after all its parents fits exactly when its complete contents are valid. */
  lemma {:induction false} BatchValidOnPartial(t: TableName, d: Collections, loaded: set<TableName>)
    requires t !in loaded && References(t) <= loaded
    ensures BatchValid(t, RowsOf(t, d), Partial(d, loaded)) <==> TableValid(RowsOf(t, d), Dumped(d))
  {
    var st := Partial(d, loaded);
    var rows := RowsOf(t, d);
    assert t in st && st[t] == {};
    AcceptedIntoEmpty(t, rows, st);
    forall k | k in rows ensures Resolves(rows[k], st) <==> Resolves(rows[k], Dumped(d)) {
      ResolvesInPartial(rows[k], d, loaded);
    }
    TableValidSameParents(rows, st, Dumped(d));
  }

  /** Into an empty table, a batch fits exactly when its rows satisfy the table's constraints among themselves. */
  lemma {:induction false} AcceptedIntoEmpty(t: TableName, rows: map<int, Row>, st: Store)
    requires t in st && st[t] == {}
    ensures BatchValid(t, rows, st) <==> TableValid(rows, st)
  {
  }

  lemma {:induction false} TableValidSameParents(rows: map<int, Row>, st1: Store, st2: Store)
    requires forall k :: k in rows ==> (Resolves(rows[k], st1) <==> Resolves(rows[k], st2))
    ensures TableValid(rows, st1) <==> TableValid(rows, st2)
  {
  }

  /** Once a row's parent tables are loaded, it resolves in the partial load exactly as in the complete one. */
  lemma {:induction false} ResolvesInPartial(r: Row, d: Collections, loaded: set<TableName>)
    requires References(TableOf(r)) <= loaded
    ensures Resolves(r, Partial(d, loaded)) <==> Resolves(r, Dumped(d))
  {
    var st := Partial(d, loaded);
    forall fk | fk in ForeignKeys(r) ensures fk.0 in st && fk.0 in Dumped(d) && st[fk.0] == Dumped(d)[fk.0] {
      assert fk.0 in References(TableOf(r));
    }
  }

  lemma {:induction false} LoadedPartial(t: TableName, d: Collections, loaded: set<TableName>)
    requires t !in loaded
    ensures t in Partial(d, loaded) && Loaded(Partial(d, loaded), t, d) == Partial(d, loaded + {t})
  {
    var st := Partial(d, loaded);
    assert st[t] == {};
    var st' := Loaded(st, t, d);
    assert st'[t] == RowsOf(t, d).Values;
    forall u | u in AllTables ensures u in st' && st'[u] == Partial(d, loaded + {t})[u] {
    }
  }

  lemma {:induction false} LoadRestReady(order: seq<TableName>, loaded: set<TableName>, faults: set<Action>)
    requires order != [] && NoDuplicates(order)
    requires forall t :: t in order ==> t !in loaded && Copy(t) !in faults
    requires forall i, p :: 0 <= i < |order| && p in References(order[i]) ==> p in loaded || p in order
    ensures NoDuplicates(order[1..])
    ensures forall t :: t in order[1..] ==> t !in loaded + {order[0]} && Copy(t) !in faults
    ensures forall i, p :: 0 <= i < |order[1..]| && p in References(order[1..][i]) ==>
      p in loaded + {order[0]} || p in order[1..]
  {
    forall t' | t' in order[1..] ensures t' !in loaded + {order[0]} && Copy(t') !in faults {
      var j := IndexOf(order[1..], t');
      assert order[j + 1] == t';
    }
    forall i, p | 0 <= i < |order[1..]| && p in References(order[1..][i])
      ensures p in loaded + {order[0]} || p in order[1..]
    {
      assert order[1..][i] == order[i + 1];
      if p !in loaded && p != order[0] {
        var j := IndexOf(order, p);
        assert order[1..][j - 1] == p;
      }
    }
  }

  /** In a create order, the parents of the first table can only come from the tables already loaded. */
  lemma {:induction false} FirstParentsLoaded(order: seq<TableName>, loaded: set<TableName>)
    requires order != [] && CreateSafe(order)
    requires forall i, p :: 0 <= i < |order| && p in References(order[i]) ==> p in loaded || p in order
    ensures References(order[0]) <= loaded
  {
    forall p | p in References(order[0]) ensures p in loaded {
      if p !in loaded {
        assert false;
      }
    }
  }

  lemma {:induction false} MembersStep(order: seq<TableName>, loaded: set<TableName>)
    requires order != []
    ensures loaded + {order[0]} + Members(order[1..]) == loaded + Members(order)
  {
    assert order == [order[0]] + order[1..];
  }

  /**
   * Loading in a create order into a schema whose earlier tables are already
   * loaded fails at the first table whose contents are invalid, and otherwise
   * leaves every table of the order complete.
   */
  lemma {:induction false} LoadFromPartial(order: seq<TableName>, d: Collections, loaded: set<TableName>, faults: set<Action>)
    requires NoDuplicates(order) && CreateSafe(order)
    requires forall t :: t in order ==> t !in loaded && Copy(t) !in faults
    requires forall i, p :: 0 <= i < |order| && p in References(order[i]) ==> p in loaded || p in order
    ensures var r := LoadAll(order, d, Partial(d, loaded), faults);
      && r.failed == (var f := FirstInvalid(order, d); if f.None? then None else Some(Copy(f.value)))
      && (r.failed.None? ==> r.store == Partial(d, loaded + Members(order)))
    decreases |order|
  {
    if order == [] {
      assert loaded + Members(order) == loaded;
    } else {
      var t := order[0];
      FirstParentsLoaded(order, loaded);
      BatchValidOnPartial(t, d, loaded);
      LoadedPartial(t, d, loaded);
      if TableValid(RowsOf(t, d), Dumped(d)) {
        LoadRestReady(order, loaded, faults);
        LoadFromPartial(order[1..], d, loaded + {t}, faults);
        MembersStep(order, loaded);
      }
    }
  }
}
