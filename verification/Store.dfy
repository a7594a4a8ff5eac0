/**
 Database tables as maps from primary key to row, and the two halves of every save: upsert the
 rows in memory, delete the owner's rows that are no longer in memory.
 */
module Store {

  /** One row: its primary key, the cluster or workflow owning it, its parent row if any, and the other columns. */
  datatype Row<K> = Row(id: K, owner: int, parent: int, body: string)

  type Table<!K(==)> = map<K, Row<K>>

  // ---------- the specification of a save ----------

  function Others<K>(t: Table<K>, owner: int): Table<K> {
    map k | k in t && t[k].owner != owner :: t[k]
  }

  /** The rows as a table; of two rows with one key the later counts. */
  function RowsOf<K>(rows: seq<Row<K>>): Table<K> {
    if rows == [] then map[] else RowsOf(rows[..|rows| - 1])[rows[|rows| - 1].id := rows[|rows| - 1]]
  }

  /** What a save leaves: the rows of others, and exactly the given rows for this owner. */
  function Reconciled<K>(t: Table<K>, rows: seq<Row<K>>, owner: int): Table<K> {
    Others(t, owner) + RowsOf(rows)
  }

  predicate DistinctIds<K(==)>(rows: seq<Row<K>>) {
    forall i, j :: 0 <= i < j < |rows| ==> rows[i].id != rows[j].id
  }

  predicate OwnedBy<K>(rows: seq<Row<K>>, owner: int) {
    forall i :: 0 <= i < |rows| ==> rows[i].owner == owner
  }

  /** The rows of an owner. */
  ghost function OwnRows<K>(t: Table<K>, owner: int): set<Row<K>> {
    set k | k in t && t[k].owner == owner :: t[k]
  }

  ghost function RowSet<K>(rows: seq<Row<K>>): set<Row<K>> {
    set r | r in rows
  }

  lemma {:induction false} RowsOfKeys<K>(rows: seq<Row<K>>, k: K)
    ensures k in RowsOf(rows) <==> exists i :: 0 <= i < |rows| && rows[i].id == k
    ensures k in RowsOf(rows) ==> RowsOf(rows)[k] in rows && RowsOf(rows)[k].id == k
  {
    if rows != [] {
      var n := |rows| - 1;
      RowsOfKeys(rows[..n], k);
      assert rows == rows[..n] + [rows[n]];
      assert rows[n].id == k ==> k in RowsOf(rows);
    }
  }

  lemma {:induction false} RowsOfDistinct<K>(rows: seq<Row<K>>, i: nat)
    requires DistinctIds(rows) && i < |rows|
    ensures rows[i].id in RowsOf(rows) && RowsOf(rows)[rows[i].id] == rows[i]
  {
    var n := |rows| - 1;
    if i < n {
      RowsOfDistinct(rows[..n], i);
    }
  }

  /** The owner's rows are exactly those in memory when their keys are distinct. */
  lemma {:induction false} OwnRowsAreMemory<K>(t: Table<K>, rows: seq<Row<K>>, owner: int)
    requires DistinctIds(rows) && OwnedBy(rows, owner)
    ensures OwnRows(Reconciled(t, rows, owner), owner) == RowSet(rows)
  {
    var after := Reconciled(t, rows, owner);
    forall r | r in RowSet(rows) ensures r in OwnRows(after, owner) {
      var i :| 0 <= i < |rows| && rows[i] == r;
      RowsOfDistinct(rows, i);
      assert after[r.id] == r;
    }
    forall r | r in OwnRows(after, owner) ensures r in RowSet(rows) {
      var k :| k in after && after[k] == r && r.owner == owner;
      RowsOfKeys(rows, k);
    }
  }

  /** Rows of other owners are unchanged exactly when no key in memory belongs to one of them. */
  lemma {:induction false} OthersUnchangedIff<K>(t: Table<K>, rows: seq<Row<K>>, owner: int)
    requires OwnedBy(rows, owner)
    ensures Others(Reconciled(t, rows, owner), owner) == Others(t, owner)
            <==> forall i :: 0 <= i < |rows| ==> rows[i].id !in Others(t, owner)
  {
    var after := Reconciled(t, rows, owner);
    forall k ensures k in RowsOf(rows) ==> RowsOf(rows)[k].owner == owner {
      RowsOfKeys(rows, k);
    }
    if forall i :: 0 <= i < |rows| ==> rows[i].id !in Others(t, owner) {
      forall k | k in Others(t, owner) ensures k in Others(after, owner) && Others(after, owner)[k] == Others(t, owner)[k] {
        RowsOfKeys(rows, k);
      }
      assert Others(after, owner) == Others(t, owner);
    } else {
      var i :| 0 <= i < |rows| && rows[i].id in Others(t, owner);
      RowsOfKeys(rows, rows[i].id);
      assert rows[i].id !in Others(after, owner);
    }
  }

  /** A save of what was just saved changes nothing. */
  lemma {:induction false} ReconcileTwice<K>(t: Table<K>, rows: seq<Row<K>>, owner: int)
    requires OwnedBy(rows, owner)
    ensures Reconciled(Reconciled(t, rows, owner), rows, owner) == Reconciled(t, rows, owner)
  {
    var after := Reconciled(t, rows, owner);
    forall k ensures k in RowsOf(rows) ==> RowsOf(rows)[k].owner == owner {
      RowsOfKeys(rows, k);
    }
  }

  // ---------- upsert ----------

  /** Whether every insert with a blank key finds the blank key unused. */
  predicate BlanksFit<K(==)>(rows: seq<Row<K>>, t: Table<K>, blank: K) {
    forall i :: 0 <= i < |rows| && rows[i].id == blank ==>
                  blank !in t && forall j :: 0 <= j < i ==> rows[j].id != blank
  }

  function Owned<K>(rows: seq<Row<K>>, owner: int): (out: seq<Row<K>>)
    ensures |out| == |rows| && OwnedBy(out, owner)
    ensures forall i :: 0 <= i < |rows| ==> out[i] == rows[i].(owner := owner)
  {
    seq(|rows|, i requires 0 <= i < |rows| => rows[i].(owner := owner))
  }

  lemma {:induction false} SumAppend<K>(t: Table<K>, rows: seq<Row<K>>, row: Row<K>)
    ensures (t + RowsOf(rows))[row.id := row] == t + RowsOf(rows + [row])
  {
  }

  /**
   Saves rows one by one: a row with a blank key is inserted, which fails if the blank key is
   taken; any other row is updated, or inserted if there is none. With faulty set, a statement
   may fail at any time.
   */
  method SaveRows<K(==)>(rows: seq<Row<K>>, t: Table<K>, blank: K, faulty: bool) returns (ok: bool, t': Table<K>)
    ensures ok ==> t' == t + RowsOf(rows) && BlanksFit(rows, t, blank)
    ensures !faulty ==> (ok <==> BlanksFit(rows, t, blank))
  {
    t' := t;
    assert t' == t + RowsOf(rows[..0]);
    for i := 0 to |rows|
      invariant t' == t + RowsOf(rows[..i])
      invariant BlanksFit(rows[..i], t, blank)
    {
      var row := rows[i];
      var fail: bool := *;
      RowsOfKeys(rows[..i], blank);
      if (faulty && fail) || (row.id == blank && blank in t') {
        if row.id == blank && blank in t' {
          BlankTaken(rows, t, blank, i);
        }
        return false, t;
      }
      SumAppend(t, rows[..i], row);
      assert rows[..i + 1] == rows[..i] + [row];
      BlankFree(rows, t, blank, i);
      t' := t'[row.id := row];
    }
    assert rows[..|rows|] == rows;
    ok := true;
  }

  lemma {:induction false} BlankTaken<K>(rows: seq<Row<K>>, t: Table<K>, blank: K, i: nat)
    requires i < |rows| && rows[i].id == blank && blank in t + RowsOf(rows[..i])
    ensures !BlanksFit(rows, t, blank)
  {
    RowsOfKeys(rows[..i], blank);
    if blank !in t {
      var j :| 0 <= j < i && rows[..i][j].id == blank;
      assert rows[j].id == blank;
    }
  }

  lemma {:induction false} BlankFree<K>(rows: seq<Row<K>>, t: Table<K>, blank: K, i: nat)
    requires i < |rows| && BlanksFit(rows[..i], t, blank)
    requires !(rows[i].id == blank && blank in t + RowsOf(rows[..i]))
    ensures BlanksFit(rows[..i + 1], t, blank)
  {
    RowsOfKeys(rows[..i], blank);
    var part := rows[..i + 1];
    assert forall j :: 0 <= j < i ==> part[j] == rows[..i][j];
  }

  // ---------- delete what is missing ----------

  predicate HasId<K(==)>(rows: seq<Row<K>>, k: K) {
    exists i :: 0 <= i < |rows| && rows[i].id == k
  }

  function WithoutMissing<K(==)>(t: Table<K>, rows: seq<Row<K>>, owner: int): Table<K> {
    map k | k in t && (t[k].owner != owner || HasId(rows, k)) :: t[k]
  }

  /** Looks up the owner's rows, in whatever order the database lists them, and deletes those not in memory. */
  method DeleteMissing<K(==)>(rows: seq<Row<K>>, t: Table<K>, owner: int, faulty: bool) returns (ok: bool, t': Table<K>)
    ensures ok ==> t' == WithoutMissing(t, rows, owner)
    ensures !faulty ==> ok
  {
    var todo := set k | k in t && t[k].owner == owner;
    ghost var found := todo;
    var fail: bool := *;
    if faulty && fail {
      return false, t;
    }
    t' := t;
    while todo != {}
      invariant todo <= found
      invariant t' == map k | k in t && (t[k].owner != owner || k in todo || HasId(rows, k)) :: t[k]
      decreases |todo|
    {
      var k :| k in todo;
      if !HasId(rows, k) {
        fail := *;
        if faulty && fail {
          return false, t;
        }
        t' := t' - {k};
      }
      todo := todo - {k};
    }
    ok := true;
  }

  lemma {:induction false} SavedThenDeleted<K>(t: Table<K>, rows: seq<Row<K>>, owner: int)
    requires OwnedBy(rows, owner)
    ensures WithoutMissing(t + RowsOf(rows), rows, owner) == Reconciled(t, rows, owner)
  {
    var kept, after := WithoutMissing(t + RowsOf(rows), rows, owner), Reconciled(t, rows, owner);
    forall k
      ensures k in kept <==> k in after
      ensures k in kept ==> kept[k] == after[k]
    {
      RowsOfKeys(rows, k);
      if k in RowsOf(rows) {
        var i :| 0 <= i < |rows| && rows[i] == RowsOf(rows)[k];
      }
    }
  }

  // ---------- rows with automatic keys, and rows with children ----------

  /** A row saved with an automatic key: a zero key is replaced by the next number of the sequence. */
  method SaveAuto(row: Row<int>, t: Table<int>, next: int, faulty: bool)
    returns (ok: bool, row': Row<int>, t': Table<int>, next': int)
    requires row.id < next && next > 0
    ensures next' == if ok && row.id == 0 then next + 1 else next
    ensures row' == if ok && row.id == 0 then row.(id := next) else row
    ensures t' == if ok then t[row'.id := row'] else t
    ensures !faulty ==> ok
  {
    ok, row', t', next' := true, row, t, next;
    var fail: bool := *;
    if faulty && fail {
      return false, row, t, next;
    }
    if row.id == 0 {
      row' := row.(id := next);
      next' := next + 1;
    }
    t' := t[row'.id := row'];
  }

  /** A row and the rows that point to it. */
  datatype Family<K> = Family(row: Row<int>, children: seq<Row<K>>)

  function Heads<K>(families: seq<Family<K>>): (out: seq<Row<int>>)
    ensures |out| == |families|
    ensures forall i :: 0 <= i < |out| ==> out[i] == families[i].row
  {
    seq(|families|, i requires 0 <= i < |families| => families[i].row)
  }

  /** All children, family by family. */
  function Children<K>(families: seq<Family<K>>): seq<Row<K>> {
    if families == [] then []
    else Children(families[..|families| - 1]) + families[|families| - 1].children
  }

  lemma {:induction false} ChildOf<K>(families: seq<Family<K>>, r: Row<K>)
    ensures r in Children(families) <==> exists i :: 0 <= i < |families| && r in families[i].children
  {
    if families != [] {
      var n := |families| - 1;
      ChildOf(families[..n], r);
      assert families == families[..n] + [families[n]];
    }
  }
}
