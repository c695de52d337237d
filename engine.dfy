/**
 * The database as the loader sees it: a store of tables changed by DROP, CREATE
 * and COPY actions inside a transaction. The engine refuses a DROP of a table
 * another existing table still references, a CREATE of a table that exists or
 * whose referenced tables are missing, and a COPY into a missing table. Any
 * other refusal (permissions, a lost connection) is named by `faults`.
 */
module Engine {
  import opened Wrappers
  import opened Schema

  datatype Action =
    | Open | Begin | Drop(table: TableName) | Create(table: TableName) | Copy(table: TableName) | Commit

  datatype Error =
    | Refused(action: Action)
    | StillReferenced(table: TableName)
    | AlreadyExists(table: TableName)
    | MissingParent(table: TableName)
    | NoSuchTable(table: TableName)
    | RowRejected(table: TableName, key: int)

  /** The action whose execution produced an error. */
  function ActionOf(e: Error): Action {
    match e
    case Refused(a) => a
    case StillReferenced(t) => Drop(t)
    case AlreadyExists(t) => Create(t)
    case MissingParent(t) => Create(t)
    case NoSuchTable(t) => Copy(t)
    case RowRejected(t, _) => Copy(t)
  }

  function FailedAction(err: Option<Error>): Option<Action> {
    if err.None? then None else Some(ActionOf(err.value))
  }

  /** Some other table of `st` declares a foreign key into `t`. */
  predicate ReferencedBy(t: TableName, st: Store) {
    exists u :: u in st && u != t && t in References(u)
  }

  /**
   * One statement. DROP uses IF EXISTS, so an absent table is not an error;
   * COPY is only prepared here, its rows are fed by the bulk loader.
   */
  function Exec(a: Action, st: Store, faults: set<Action>): (r: Result<Store, Error>)
    ensures r.Err? ==> ActionOf(r.error) == a
    ensures a in faults ==> r == Err(Refused(a))
    // DROP TABLE IF EXISTS: an absent table is no error; a table still referenced cannot go
    ensures a.Drop? && a !in faults && a.table !in st ==> r == Ok(st)
    ensures a.Drop? && a !in faults ==> (r.Err? <==> a.table in st && ReferencedBy(a.table, st))
    ensures a.Drop? && r.Ok? ==> r.value.Keys == st.Keys - {a.table}
                                 && forall u :: u in r.value ==> r.value[u] == st[u]
    // CREATE TABLE: the table must be new and every table it references must exist
    ensures a.Create? && a !in faults ==> (r.Ok? <==> a.table !in st && References(a.table) <= st.Keys)
    ensures a.Create? && r.Ok? ==> r.value.Keys == st.Keys + {a.table} && r.value[a.table] == {}
                                   && forall u :: u in st ==> r.value[u] == st[u]
    // COPY is prepared against an existing table; the rows are fed by the bulk loader
    ensures a.Copy? && a !in faults ==> (r.Ok? <==> a.table in st)
    ensures !a.Drop? && !a.Create? && r.Ok? ==> r.value == st
    ensures (a.Open? || a.Begin? || a.Commit?) && a !in faults ==> r == Ok(st)
  {
    if a in faults then Err(Refused(a))
    else match a
      case Drop(t) =>
        if t !in st then Ok(st)
        else if ReferencedBy(t, st) then Err(StillReferenced(t))
        else Ok(st - {t})
      case Create(t) =>
        if t in st then Err(AlreadyExists(t))
        else if !(References(t) <= st.Keys) then Err(MissingParent(t))
        else Ok(st[t := {}])
      case Copy(t) =>
        if t in st then Ok(st) else Err(NoSuchTable(t))
      case _ => Ok(st)
  }

  /** The first error of a run, if any, and the store as it stood when the run ended or stopped. */
  datatype Outcome = Outcome(err: Option<Error>, store: Store)

  /** What the loader reports: the action that failed, if any, and the committed store. */
  datatype Report = Report(failed: Option<Action>, store: Store)

  /** Executes a script in order inside one transaction, stopping at the first error. */
  function Run(script: seq<Action>, st: Store, faults: set<Action>): (o: Outcome)
    ensures o.err.Some? ==> ActionOf(o.err.value) in script
    decreases |script|
  {
    if script == [] then Outcome(None, st)
    else match Exec(script[0], st, faults)
      case Err(e) => Outcome(Some(e), st)
      case Ok(next) => Run(script[1..], next, faults)
  }

  /** Running two scripts back to back: once the first fails, nothing of the second is executed. */
  lemma {:induction false} RunAppend(s1: seq<Action>, s2: seq<Action>, st: Store, faults: set<Action>)
    ensures Run(s1 + s2, st, faults) ==
      var o := Run(s1, st, faults); if o.err.Some? then o else Run(s2, o.store, faults)
    decreases |s1|
  {
    if s1 == [] {
      assert s1 + s2 == s2;
    } else {
      assert (s1 + s2)[0] == s1[0];
      assert (s1 + s2)[1..] == s1[1..] + s2;
      match Exec(s1[0], st, faults)
      case Err(_) =>
      case Ok(next) => RunAppend(s1[1..], s2, next, faults);
    }
  }

  /**
   * A failed run stopped at one action of the script: every action before it
   * succeeded, the store is what they left, and no later action ran.
   */
  lemma {:induction false} RunStopsAtFailure(script: seq<Action>, st: Store, faults: set<Action>)
    ensures var o := Run(script, st, faults);
      o.err.Some? ==> exists i :: 0 <= i < |script| && Run(script[..i], st, faults) == Outcome(None, o.store)
                                   && Exec(script[i], o.store, faults) == Err(o.err.value)
    decreases |script|
  {
    var o := Run(script, st, faults);
    if o.err.Some? {
      match Exec(script[0], st, faults)
      case Err(e) =>
        assert script[..0] == [];
      case Ok(next) =>
        RunStopsAtFailure(script[1..], next, faults);
        var i :| 0 <= i < |script[1..]| && Run(script[1..][..i], next, faults) == Outcome(None, o.store)
                 && Exec(script[1..][i], o.store, faults) == Err(o.err.value);
        assert script[..i + 1][1..] == script[1..][..i];
        assert Run(script[..i + 1], st, faults) == Outcome(None, o.store);
    }
  }

  function Drops(order: seq<TableName>): (script: seq<Action>)
    ensures |script| == |order| && forall i :: 0 <= i < |order| ==> script[i] == Drop(order[i])
  {
    seq(|order|, i requires 0 <= i < |order| => Drop(order[i]))
  }

  function Creates(order: seq<TableName>): (script: seq<Action>)
    ensures |script| == |order| && forall i :: 0 <= i < |order| ==> script[i] == Create(order[i])
  {
    seq(|order|, i requires 0 <= i < |order| => Create(order[i]))
  }

  // ---------------------------------------------------------------------------
  // Table orders
  // ---------------------------------------------------------------------------

  predicate NoDuplicates(order: seq<TableName>) {
    forall i, j :: 0 <= i < j < |order| ==> order[i] != order[j]
  }

  /** Each of the seven tables appears exactly once. */
  predicate ListsEveryTable(order: seq<TableName>) {
    NoDuplicates(order) && forall t: TableName :: t in order
  }

  /** Every table comes after every table its CREATE references: a topological order. */
  predicate CreateSafe(order: seq<TableName>) {
    forall i, j :: 0 <= i < |order| && 0 <= j < |order| && order[j] in References(order[i]) ==> j < i
  }

  /** Every table comes before every table it references: a reverse topological order. */
  predicate DropSafe(order: seq<TableName>) {
    forall i, j :: 0 <= i < |order| && 0 <= j < |order| && order[j] in References(order[i]) ==> i < j
  }

  /** The position of a listed table. */
  function IndexOf(order: seq<TableName>, t: TableName): (i: nat)
    requires t in order
    ensures i < |order| && order[i] == t
  {
    if order[0] == t then 0 else 1 + IndexOf(order[1..], t)
  }

  /** The length of the longest chain of references below a table. */
  function Depth(t: TableName): nat {
    match t
    case Classes => 0
    case Materials => 0
    case Servants => 1
    case SkillLevels => 2
    case AscensionLevels => 2
    case SkillCosts => 3
    case AscensionCosts => 3
  }

  lemma DepthDecreases(t: TableName, p: TableName)
    requires p in References(t)
    ensures Depth(p) < Depth(t)
  {
  }

  /** Listing tables by non-decreasing depth creates every table after its parents. */
  lemma {:induction false} ShallowFirstIsCreateSafe(order: seq<TableName>)
    requires forall i :: 0 <= i < |order| - 1 ==> Depth(order[i]) <= Depth(order[i + 1])
    ensures CreateSafe(order)
  {
    forall i, j | 0 <= i < |order| && 0 <= j < |order| && order[j] in References(order[i]) ensures j < i {
      DepthDecreases(order[i], order[j]);
      if i <= j {
        DepthMonotone(order, i, j);
      }
    }
  }

  lemma {:induction false} DepthMonotone(order: seq<TableName>, i: int, j: int)
    requires forall k :: 0 <= k < |order| - 1 ==> Depth(order[k]) <= Depth(order[k + 1])
    requires 0 <= i <= j < |order|
    ensures Depth(order[i]) <= Depth(order[j])
    decreases j - i
  {
    if i < j {
      DepthMonotone(order, i + 1, j);
    }
  }

  /** Listing tables by non-increasing depth drops every table before its parents. */
  lemma {:induction false} DeepFirstIsDropSafe(order: seq<TableName>)
    requires forall i :: 0 <= i < |order| - 1 ==> Depth(order[i]) >= Depth(order[i + 1])
    ensures DropSafe(order)
  {
    forall i, j | 0 <= i < |order| && 0 <= j < |order| && order[j] in References(order[i]) ensures i < j {
      DepthDecreases(order[i], order[j]);
      if j <= i {
        DepthAntitone(order, j, i);
      }
    }
  }

  lemma {:induction false} DepthAntitone(order: seq<TableName>, i: int, j: int)
    requires forall k :: 0 <= k < |order| - 1 ==> Depth(order[k]) >= Depth(order[k + 1])
    requires 0 <= i <= j < |order|
    ensures Depth(order[i]) >= Depth(order[j])
    decreases j - i
  {
    if i < j {
      DepthAntitone(order, i + 1, j);
    }
  }

  function Members(order: seq<TableName>): set<TableName> {
    set t | t in order
  }

  /** Each table of `ts` present and empty; every other table as in `st`. */
  function WithEmpty(st: Store, ts: set<TableName>): Store {
    map t | t in st.Keys + ts :: if t in ts then {} else st[t]
  }

  /** The schema right after a reset: the seven tables, all empty. */
  function FreshSchema(): Store {
    map t | t in AllTables :: {}
  }

  /**
   * Dropping in a reverse topological order never meets a table that is still
   * referenced, provided every table that references a dropped table is dropped too.
   */
  lemma {:induction false} DropsSucceed(order: seq<TableName>, st: Store, faults: set<Action>)
    requires DropSafe(order)
    requires forall t :: t in order ==> Drop(t) !in faults
    requires forall u, t :: u in st && t in order && t in References(u) ==> u in order
    ensures Run(Drops(order), st, faults) == Outcome(None, st - Members(order))
    decreases |order|
  {
    if order == [] {
      assert st - Members(order) == st;
    } else {
      var t := order[0];
      assert t in order;
      assert !ReferencedBy(t, st);
      var next := st - {t};
      if t !in st {
        assert next == st;
      }
      assert Exec(Drop(t), st, faults) == Ok(next);
      assert Drops(order)[1..] == Drops(order[1..]);
      forall u, t' | u in next && t' in order[1..] && t' in References(u) ensures u in order[1..] {
        var j := IndexOf(order[1..], t');
        assert order[j + 1] == t';
        assert t' in order;
        var i := IndexOf(order, u);
        assert i != 0;
        assert order[1..][i - 1] == u;
      }
      DropsSucceed(order[1..], next, faults);
      assert next - Members(order[1..]) == st - Members(order);
    }
  }

  /**
   * Creating in a topological order never meets an existing table or a missing
   * parent, provided none of the tables exists yet and every parent is created or present.
   */
  lemma {:induction false} CreatesSucceed(order: seq<TableName>, st: Store, faults: set<Action>)
    requires NoDuplicates(order) && CreateSafe(order)
    requires forall t :: t in order ==> Create(t) !in faults && t !in st
    requires forall i, p :: 0 <= i < |order| && p in References(order[i]) ==> p in st || p in order
    ensures Run(Creates(order), st, faults) == Outcome(None, WithEmpty(st, Members(order)))
    decreases |order|
  {
    if order == [] {
      assert WithEmpty(st, Members(order)) == st;
    } else {
      var t := order[0];
      var next := st[t := {}];
      CreateFirstSucceeds(order, st, faults);
      assert Creates(order)[1..] == Creates(order[1..]);
      CreateRestReady(order, st);
      CreatesSucceed(order[1..], next, faults);
      WithEmptyStep(order, st);
    }
  }

  lemma WithEmptyStep(order: seq<TableName>, st: Store)
    requires order != []
    ensures WithEmpty(st[order[0] := {}], Members(order[1..])) == WithEmpty(st, Members(order))
  {
    assert Members(order) == {order[0]} + Members(order[1..]);
  }

  lemma CreateFirstSucceeds(order: seq<TableName>, st: Store, faults: set<Action>)
    requires order != [] && CreateSafe(order)
    requires Create(order[0]) !in faults && order[0] !in st
    requires forall p :: p in References(order[0]) ==> p in st || p in order
    ensures Exec(Create(order[0]), st, faults) == Ok(st[order[0] := {}])
  {
    forall p | p in References(order[0]) ensures p in st {
      if p !in st {
        assert false;
      }
    }
  }

  lemma CreateRestReady(order: seq<TableName>, st: Store)
    requires order != [] && NoDuplicates(order)
    requires forall t :: t in order ==> t !in st
    requires forall i, p :: 0 <= i < |order| && p in References(order[i]) ==> p in st || p in order
    ensures forall t :: t in order[1..] ==> t !in st[order[0] := {}]
    ensures forall i, p :: 0 <= i < |order[1..]| && p in References(order[1..][i]) ==>
      p in st[order[0] := {}] || p in order[1..]
  {
    var next := st[order[0] := {}];
    forall t' | t' in order[1..] ensures t' !in next {
      var j := IndexOf(order[1..], t');
      assert order[j + 1] == t';
    }
    forall i, p | 0 <= i < |order[1..]| && p in References(order[1..][i]) ensures p in next || p in order[1..] {
      assert order[1..][i] == order[i + 1];
      if p !in st && p != order[0] {
        var j := IndexOf(order, p);
        assert order[1..][j - 1] == p;
      }
    }
  }

  function Reversed(order: seq<TableName>): (r: seq<TableName>)
    ensures |r| == |order| && forall i :: 0 <= i < |order| ==> r[i] == order[|order| - 1 - i]
  {
    seq(|order|, i requires 0 <= i < |order| => order[|order| - 1 - i])
  }

  /** The literal reverse of a create order is a drop order, and the other way round. */
  lemma {:induction false} ReversedCreateOrderIsDropOrder(order: seq<TableName>)
    ensures DropSafe(Reversed(order)) <==> CreateSafe(order)
  {
    var r := Reversed(order);
    var n := |order|;
    if CreateSafe(order) {
      forall i, j | 0 <= i < n && 0 <= j < n && r[j] in References(r[i]) ensures i < j {
        assert order[n - 1 - j] in References(order[n - 1 - i]);
      }
    }
    if DropSafe(r) {
      forall i, j | 0 <= i < n && 0 <= j < n && order[j] in References(order[i]) ensures j < i {
        assert r[n - 1 - j] in References(r[n - 1 - i]);
      }
    }
  }
}
