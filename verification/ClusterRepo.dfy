/** Saving and loading a cluster with its node groups, nodes, cloud resources, securities and disks. */
module ClusterRepos {
  import opened Wrappers
  import opened Store

  /** The cluster row's own columns that are not at their zero value. */
  type Columns = map<string, string>

  datatype Database = Database(
    clusters: map<int, Columns>,
    nodeGroups: Table<string>, nodes: Table<int>, cloudResources: Table<string>,
    securitys: Table<string>, disks: Table<string>)

  /** The values of an in-memory cluster. Disks are the children of their node. */
  datatype Memory = Memory(
    id: int, columns: Columns, nodeGroups: seq<Row<string>>, nodes: seq<Family<string>>,
    cloudResources: seq<Row<string>>, securitys: seq<Row<string>>)

  /** The in-memory cluster object, whose keys and owners a save fills in. */
  class Record {
    var id: int
    var columns: Columns
    var nodeGroups: seq<Row<string>>
    var nodes: seq<Family<string>>
    var cloudResources: seq<Row<string>>
    var securitys: seq<Row<string>>

    constructor (columns: Columns, nodes: seq<Family<string>>)
      ensures id == 0 && this.columns == columns && this.nodes == nodes
      ensures nodeGroups == [] && cloudResources == [] && securitys == []
    {
      id, this.columns, this.nodes := 0, columns, nodes;
      nodeGroups, cloudResources, securitys := [], [], [];
    }

    function Values(): Memory
      reads this
    {
      Memory(id, columns, nodeGroups, nodes, cloudResources, securitys)
    }
  }

  // ---------- specification ----------

  /** A new cluster is stored as it is; for an old one only the non-zero columns are written, if its row exists. */
  function ClusterTable(t: map<int, Columns>, oldId: int, id: int, columns: Columns): map<int, Columns> {
    if oldId == 0 then t[id := columns]
    else if id in t then t[id := t[id] + columns]
    else t
  }

  /**
   Only the one row is written: a new cluster's row holds its columns, in an old one every given
   column is written and every other one kept, and no row of an old cluster comes or goes.
   */
  predicate OneRowWritten(was: map<int, Columns>, now: map<int, Columns>, oldId: int, id: int, columns: Columns) {
    && (forall k :: k in now && k != id ==> k in was && now[k] == was[k])
    && (forall k :: k in was && k != id ==> k in now)
    && (oldId == 0 ==> id in now && now[id] == columns)
    && (oldId != 0 ==> (id in now <==> id in was))
    && (oldId != 0 && id in was && id in now ==>
          && (forall col :: col in now[id] ==> (if col in columns then now[id][col] == columns[col] else col in was[id] && now[id][col] == was[id][col]))
          && columns.Keys + was[id].Keys <= now[id].Keys)
  }

  lemma {:induction false} TableIsOneRow(was: map<int, Columns>, oldId: int, id: int, columns: Columns)
    ensures OneRowWritten(was, ClusterTable(was, oldId, id, columns), oldId, id, columns)
  {
  }

  predicate IdsBelow<K>(nodes: seq<Family<K>>, next: int) {
    forall i :: 0 <= i < |nodes| ==> 0 <= nodes[i].row.id < next
  }

  predicate DistinctNonZero<K>(nodes: seq<Family<K>>) {
    forall i, j :: 0 <= i < j < |nodes| && nodes[i].row.id == nodes[j].row.id ==> nodes[i].row.id == 0
  }

  /** A saved row: owner set, zero key replaced by a number not handed out before. */
  predicate SavedRow(before: Row<int>, after: Row<int>, owner: int, parent: int, next: int) {
    && after.owner == owner && after.parent == parent && after.body == before.body
    && (if before.id == 0 then after.id >= next else after.id == before.id)
  }

  /** The children point to their saved row and are otherwise as before. */
  predicate SavedChildren<K(==)>(before: seq<Row<K>>, after: seq<Row<K>>, owner: int, parent: int) {
    && |after| == |before|
    && forall j :: 0 <= j < |after| ==> after[j] == before[j].(owner := owner, parent := parent)
  }

  predicate SavedNodes(before: seq<Family<string>>, after: seq<Family<string>>, owner: int, next: int) {
    && |after| == |before|
    && forall i :: 0 <= i < |after| ==>
                     && SavedRow(before[i].row, after[i].row, owner, before[i].row.parent, next)
                     && SavedChildren(before[i].children, after[i].children, owner, after[i].row.id)
  }

  /** now is was with this cluster's child rows replaced by those in memory, and nothing else changed. */
  ghost predicate ChildrenSaved(was: Database, now: Database, id: int, nodeGroups: seq<Row<string>>,
                                nodes: seq<Family<string>>, cloudResources: seq<Row<string>>, securitys: seq<Row<string>>) {
    && now.nodeGroups == Reconciled(was.nodeGroups, nodeGroups, id)
    && now.nodes == Reconciled(was.nodes, Heads(nodes), id)
    && now.cloudResources == Reconciled(was.cloudResources, cloudResources, id)
    && now.securitys == Reconciled(was.securitys, securitys, id)
    && now.disks == Reconciled(was.disks, Children(nodes), id)
  }

  /** What a successful save does to the memory: owners filled in, zero keys replaced. */
  ghost predicate MemorySaved(before: Memory, after: Memory, newCluster: int, firstNode: int) {
    && after.id == (if before.id == 0 then newCluster else before.id)
    && after.columns == before.columns
    && after.nodeGroups == Owned(before.nodeGroups, after.id)
    && after.cloudResources == Owned(before.cloudResources, after.id)
    && after.securitys == Owned(before.securitys, after.id)
    && SavedNodes(before.nodes, after.nodes, after.id, firstNode)
    && (DistinctNonZero(before.nodes) ==> DistinctIds(Heads(after.nodes)))
  }

  /** The same rows up to the owner. */
  predicate SameButOwner<K(==)>(before: seq<Row<K>>, after: seq<Row<K>>) {
    |after| == |before| && forall i :: 0 <= i < |after| ==> after[i].(owner := before[i].owner) == before[i]
  }

  /** The same rows up to owner and parent. */
  predicate SameButLinks<K(==)>(before: seq<Row<K>>, after: seq<Row<K>>) {
    |after| == |before| && forall i :: 0 <= i < |after| ==> after[i].id == before[i].id && after[i].body == before[i].body
  }

  /** The same nodes and disks up to owners and parents, some zero keys replaced by numbers in [low, next). */
  predicate KeysGiven(before: seq<Family<string>>, after: seq<Family<string>>, low: int, next: int) {
    && |after| == |before|
    && (forall i :: 0 <= i < |after| ==>
                      && after[i].row.body == before[i].row.body && after[i].row.parent == before[i].row.parent
                      && (after[i].row.id == before[i].row.id || (before[i].row.id == 0 && low <= after[i].row.id < next))
                      && SameButLinks(before[i].children, after[i].children))
    && (DistinctNonZero(before) ==> DistinctNonZero(after))
  }

  /** What any save, also a failed one, does to the memory at most: keys handed out stay with it. */
  ghost predicate MemoryTouched(before: Memory, after: Memory, newCluster: int, firstNode: int, nextNode: int) {
    && (after.id == before.id || (before.id == 0 && after.id == newCluster))
    && after.columns == before.columns
    && SameButOwner(before.nodeGroups, after.nodeGroups)
    && SameButOwner(before.cloudResources, after.cloudResources)
    && SameButOwner(before.securitys, after.securitys)
    && KeysGiven(before.nodes, after.nodes, firstNode, nextNode)
  }

  /** What a successful save does to the database. */
  ghost predicate DatabaseSaved(was: Database, now: Database, oldId: int, m: Memory) {
    && now.clusters == ClusterTable(was.clusters, oldId, m.id, m.columns)
    && ChildrenSaved(was, now, m.id, m.nodeGroups, m.nodes, m.cloudResources, m.securitys)
  }

  /** No insert with a blank key meets a row that has it. */
  predicate Fits(was: Database, groups: seq<Row<string>>, nodes: seq<Family<string>>, resources: seq<Row<string>>, securitys: seq<Row<string>>) {
    && BlanksFit(groups, was.nodeGroups, "")
    && BlanksFit(resources, was.cloudResources, "")
    && BlanksFit(securitys, was.securitys, "")
    && BlanksFit(Children(nodes), was.disks, "")
  }

  predicate KeysBelow(db: Database, nextCluster: int, nextNode: int) {
    && nextCluster > 0 && nextNode > 0
    && (forall k :: k in db.clusters ==> 0 < k < nextCluster)
    && (forall k :: k in db.nodes ==> 0 < k < nextNode)
  }

  // ---------- the repository ----------

  class ClusterRepo {
    const faulty: bool
    var db: Database
    var nextCluster: int
    var nextNode: int

    constructor (faulty: bool)
      ensures Valid() && this.faulty == faulty
      ensures db == Database(map[], map[], map[], map[], map[], map[])
    {
      this.faulty := faulty;
      db := Database(map[], map[], map[], map[], map[], map[]);
      nextCluster, nextNode := 1, 1;
    }

    /** Automatic keys are positive and were handed out before. */
    predicate Valid()
      reads this
    {
      KeysBelow(db, nextCluster, nextNode)
    }

    /** saveNodeGroup, saveCloudResources and saveSecuritys: one body for the three tables. */
    method SaveTable(rows: seq<Row<string>>, t: Table<string>, owner: int)
      returns (ok: bool, rows': seq<Row<string>>, t': Table<string>)
      ensures rows' == Owned(rows, owner)
      ensures ok ==> t' == Reconciled(t, rows', owner) && BlanksFit(rows', t, "")
      ensures !faulty ==> (ok <==> BlanksFit(rows', t, ""))
    {
      rows' := Owned(rows, owner);
      ok, t' := SaveRows(rows', t, "", faulty);
      if ok {
        ok, t' := DeleteMissing(rows', t', owner, faulty);
        SavedThenDeleted(t, rows', owner);
      }
    }

    method SaveNodes(nodes: seq<Family<string>>, t: Table<int>, owner: int)
      returns (ok: bool, nodes': seq<Family<string>>, t': Table<int>)
      requires nextNode > 0 && IdsBelow(nodes, nextNode)
      modifies this`nextNode
      ensures nextNode >= old(nextNode)
      ensures KeysGiven(nodes, nodes', old(nextNode), nextNode)
      ensures ok ==> Numbered(nodes, nodes', |nodes|, owner, old(nextNode), nextNode)
      ensures ok ==> t' == Reconciled(t, Heads(nodes'), owner)
      ensures !faulty ==> ok
    {
      nodes', t' := [], t;
      var low, next := nextNode, nextNode;
      for i := 0 to |nodes|
        invariant low == old(nextNode) && next >= low && nextNode == low
        invariant Numbered(nodes, nodes', i, owner, low, next)
        invariant t' == t + RowsOf(Heads(nodes'))
      {
        var saved, next';
        ok, saved, t', next' := SaveAuto(nodes[i].row.(owner := owner), t', next, faulty);
        if !ok {
          nextNode := next;
          NumberedThenRest(nodes, nodes', i, owner, low, next);
          return false, nodes' + nodes[i..], t';
        }
        NumberedStep(nodes, nodes', i, owner, low, next, saved, next');
        SumAppend(t, Heads(nodes'), saved);
        next, nodes' := next', nodes' + [Family(saved, nodes[i].children)];
      }
      nextNode := next;
      NumberedThenRest(nodes, nodes', |nodes|, owner, low, next);
      assert nodes' + nodes[|nodes|..] == nodes';
      ok, t' := DeleteMissing(Heads(nodes'), t', owner, faulty);
      SavedThenDeleted(t, Heads(nodes'), owner);
    }

    /** Every disk points to its node, also to one inserted in this call. */
    method SaveDisks(nodes: seq<Family<string>>, t: Table<string>, owner: int)
      returns (ok: bool, nodes': seq<Family<string>>, t': Table<string>)
      ensures |nodes'| == |nodes|
      ensures forall i :: 0 <= i < |nodes| ==>
                            && nodes'[i].row == nodes[i].row
                            && SavedChildren(nodes[i].children, nodes'[i].children, owner, nodes[i].row.id)
      ensures ok ==> t' == Reconciled(t, Children(nodes'), owner)
      ensures !faulty ==> (ok <==> BlanksFit(Children(nodes), t, ""))
    {
      nodes' := [];
      for i := 0 to |nodes|
        invariant |nodes'| == i
        invariant forall k :: 0 <= k < i ==>
                                && nodes'[k].row == nodes[k].row
                                && SavedChildren(nodes[k].children, nodes'[k].children, owner, nodes[k].row.id)
      {
        var disks := nodes[i].children;
        var disks' := seq(|disks|, j requires 0 <= j < |disks| => disks[j].(owner := owner, parent := nodes[i].row.id));
        nodes' := nodes' + [Family(nodes[i].row, disks')];
      }
      ok, t' := SaveRows(Children(nodes'), t, "", faulty);
      SameChildIds(nodes, nodes', owner);
      if ok {
        ok, t' := DeleteMissing(Children(nodes'), t', owner, faulty);
        SavedThenDeleted(t, Children(nodes'), owner);
      }
    }

    /** The five child saves, one after the other, stopping at the first that fails. */
    method SaveChildren(tx: Database, id: int, groups: seq<Row<string>>, nodes: seq<Family<string>>,
                        resources: seq<Row<string>>, securitys: seq<Row<string>>)
      returns (ok: bool, tx': Database, nodes': seq<Family<string>>)
      requires nextNode > 0 && IdsBelow(nodes, nextNode)
      modifies this`nextNode
      ensures nextNode >= old(nextNode) && KeysGiven(nodes, nodes', old(nextNode), nextNode)
      ensures ok ==>
                && tx'.clusters == tx.clusters
                && ChildrenSaved(tx, tx', id, Owned(groups, id), nodes', Owned(resources, id), Owned(securitys, id))
                && SavedNodes(nodes, nodes', id, old(nextNode))
                && (DistinctNonZero(nodes) ==> DistinctIds(Heads(nodes')))
                && (forall i :: 0 <= i < |nodes'| ==> 0 < nodes'[i].row.id < nextNode)
      ensures !faulty ==> (ok <==> Fits(tx, groups, nodes, resources, securitys))
    {
      SameBlanks(groups, Owned(groups, id), tx.nodeGroups);
      SameBlanks(resources, Owned(resources, id), tx.cloudResources);
      SameBlanks(securitys, Owned(securitys, id), tx.securitys);
      tx', nodes' := tx, nodes;
      var rows, groupTable, resourceTable, securityTable, nodeTable, diskTable, numbered;
      ok, rows, groupTable := SaveTable(groups, tx.nodeGroups, id);
      if !ok {
        return;
      }
      ok, numbered, nodeTable := SaveNodes(nodes, tx.nodes, id);
      nodes' := numbered;
      if !ok {
        return;
      }
      ok, rows, resourceTable := SaveTable(resources, tx.cloudResources, id);
      if !ok {
        return;
      }
      ok, rows, securityTable := SaveTable(securitys, tx.securitys, id);
      if !ok {
        return;
      }
      NumberedChildren(nodes, numbered, id, old(nextNode), nextNode);
      ok, nodes', diskTable := SaveDisks(numbered, tx.disks, id);
      DisksKeepKeys(nodes, numbered, nodes', id, old(nextNode), nextNode);
      if !ok {
        return;
      }
      NumberedThenDisks(nodes, numbered, nodes', id, old(nextNode), nextNode);
      tx' := Database(tx.clusters, groupTable, nodeTable, resourceTable, securityTable, diskTable);
    }

    /**
     All or nothing: a failed statement leaves the database as it was; success replaces exactly
     this cluster's child rows by those in memory. Without faults only a blank key, inserted
     where one is already taken, can stop a save. Either way the memory can be saved again.
     */
    method Save(c: Record) returns (ok: bool)
      requires Valid() && 0 <= c.id < nextCluster && IdsBelow(c.nodes, nextNode)
      modifies this, c
      ensures Valid() && 0 <= c.id < nextCluster && IdsBelow(c.nodes, nextNode)
      ensures nextCluster >= old(nextCluster) && nextNode >= old(nextNode)
      ensures MemoryTouched(old(c.Values()), c.Values(), old(nextCluster), old(nextNode), nextNode)
      ensures !faulty ==> c.id != 0
      ensures !ok ==> db == old(db)
      ensures ok ==> MemorySaved(old(c.Values()), c.Values(), old(nextCluster), old(nextNode))
      ensures ok ==> DatabaseSaved(old(db), db, old(c.id), c.Values())
      ensures ok ==> OneRowWritten(old(db.clusters), db.clusters, old(c.id), c.id, c.columns)
      ensures !faulty ==>
                (ok <==> Fits(old(db), old(c.nodeGroups), old(c.nodes), old(c.cloudResources), old(c.securitys)))
    {
      var tx, m;
      ok, tx, m := Transact(c.Values());
      TableIsOneRow(db.clusters, c.id, m.id, m.columns);
      c.id, c.nodeGroups, c.nodes, c.cloudResources, c.securitys := m.id, m.nodeGroups, m.nodes, m.cloudResources, m.securitys;
      if ok {
        db := tx;
      }
    }

    /**
     The statements of one save and the commit, on a working copy of the database. A cluster or
     node key handed out stays with the memory, and is not handed out again, even if the rest fails.
     */
    method Transact(before: Memory) returns (ok: bool, tx: Database, m: Memory)
      requires Valid() && 0 <= before.id < nextCluster && IdsBelow(before.nodes, nextNode)
      modifies this`nextCluster, this`nextNode
      ensures Valid() && 0 <= m.id < nextCluster && IdsBelow(m.nodes, nextNode)
      ensures nextCluster >= old(nextCluster) && nextNode >= old(nextNode)
      ensures MemoryTouched(before, m, old(nextCluster), old(nextNode), nextNode)
      ensures !faulty ==> m.id != 0
      ensures ok ==> MemorySaved(before, m, old(nextCluster), old(nextNode))
      ensures ok ==> DatabaseSaved(db, tx, before.id, m)
      ensures ok ==> KeysBelow(tx, nextCluster, nextNode)
      ensures !faulty ==>
                (ok <==> Fits(db, before.nodeGroups, before.nodes, before.cloudResources, before.securitys))
    {
      ghost var firstCluster, firstNode := nextCluster, nextNode;
      tx, m := db, before;
      var fail: bool := *;
      if faulty && fail {
        return false, tx, m;
      }
      var clusters;
      clusters, m := SaveClusterRow(m);
      ghost var started := db.(clusters := clusters);
      var nodes;
      ok, tx, nodes := SaveChildren(db.(clusters := clusters), m.id, m.nodeGroups, m.nodes, m.cloudResources, m.securitys);
      KeysStayBelow(before.nodes, nodes, firstNode, nextNode);
      if !ok {
        m := m.(nodes := nodes);
        return;
      }
      m := Memory(m.id, m.columns, Owned(m.nodeGroups, m.id), nodes, Owned(m.cloudResources, m.id), Owned(m.securitys, m.id));
      CommitKeys(db, started, tx, before.id, m.id, m.columns, firstCluster, nextCluster, firstNode, nextNode, nodes);
      fail := *;
      if faulty && fail {
        return false, tx, m;
      }
    }

    /** Creates the cluster row, or updates its non-zero columns. */
    method SaveClusterRow(before: Memory) returns (clusters: map<int, Columns>, m: Memory)
      requires nextCluster > 0
      modifies this`nextCluster
      ensures m == before.(id := if before.id == 0 then old(nextCluster) else before.id)
      ensures clusters == ClusterTable(db.clusters, before.id, m.id, before.columns)
      ensures nextCluster == (if before.id == 0 then old(nextCluster) + 1 else old(nextCluster))
    {
      clusters, m := db.clusters, before;
      if before.id == 0 {
        clusters := clusters[nextCluster := before.columns];
        m := m.(id := nextCluster);
        nextCluster := nextCluster + 1;
      } else if before.id in clusters {
        clusters := clusters[before.id := clusters[before.id] + before.columns];
      }
    }

    /** The row of a cluster with its children, disks grouped under the node they point to. */
    method Get(id: int) returns (r: Option<Loaded>)
      ensures r.None? <==> id !in db.clusters
      ensures r.Some? ==> Loads(db, id, r.value)
    {
      if id !in db.clusters {
        return None;
      }
      var nodeGroups := Find(db.nodeGroups, id);
      var rows := Find(db.nodes, id);
      var cloudResources := Find(db.cloudResources, id);
      var securitys := Find(db.securitys, id);
      var disks := Find(db.disks, id);
      var nodes: seq<Family<string>> := [];
      for i := 0 to |rows|
        invariant |nodes| == i
        invariant forall k :: 0 <= k < i ==> nodes[k].row == rows[k] && Grouped(nodes[k], disks)
      {
        var mine: seq<Row<string>> := [];
        for j := 0 to |disks|
          invariant forall d :: d in mine <==> d in disks[..j] && d.parent == rows[i].id
        {
          if disks[j].parent == rows[i].id {
            mine := mine + [disks[j]];
          }
        }
        assert disks[..|disks|] == disks;
        nodes := nodes + [Family(rows[i], mine)];
      }
      assert Heads(nodes) == rows;
      forall k | 0 <= k < |nodes| ensures RowSet(nodes[k].children) == DisksOf(db, id, nodes[k].row.id) {
        assert Grouped(nodes[k], disks);
        forall d ensures d in nodes[k].children <==> d in DisksOf(db, id, nodes[k].row.id) {
          assert d in disks <==> d in RowSet(disks);
        }
      }
      r := Some(Loaded(db.clusters[id], nodeGroups, nodes, cloudResources, securitys));
    }
  }

  predicate Grouped(f: Family<string>, disks: seq<Row<string>>) {
    && (forall d :: d in f.children ==> d in disks && d.parent == f.row.id)
    && (forall d :: d in disks && d.parent == f.row.id ==> d in f.children)
  }

  /** The rows of an owner, in some order. */
  method Find<K(==)>(t: Table<K>, owner: int) returns (rows: seq<Row<K>>)
    ensures RowSet(rows) == OwnRows(t, owner)
  {
    rows := [];
    var todo := t.Keys;
    while todo != {}
      invariant todo <= t.Keys
      invariant forall r :: r in rows <==> exists k :: k in t && k !in todo && t[k].owner == owner && t[k] == r
      decreases |todo|
    {
      var k :| k in todo;
      if t[k].owner == owner {
        rows := rows + [t[k]];
      }
      todo := todo - {k};
    }
  }

  datatype Loaded = Loaded(
    columns: Columns, nodeGroups: seq<Row<string>>, nodes: seq<Family<string>>,
    cloudResources: seq<Row<string>>, securitys: seq<Row<string>>)

  ghost function DisksOf(db: Database, id: int, node: int): set<Row<string>> {
    set d | d in OwnRows(db.disks, id) && d.parent == node
  }

  ghost predicate Loads(db: Database, id: int, r: Loaded)
    requires id in db.clusters
  {
    && r.columns == db.clusters[id]
    && RowSet(r.nodeGroups) == OwnRows(db.nodeGroups, id)
    && RowSet(Heads(r.nodes)) == OwnRows(db.nodes, id)
    && (forall i :: 0 <= i < |r.nodes| ==> RowSet(r.nodes[i].children) == DisksOf(db, id, r.nodes[i].row.id))
    && RowSet(r.cloudResources) == OwnRows(db.cloudResources, id)
    && RowSet(r.securitys) == OwnRows(db.securitys, id)
  }

  // ---------- helpers ----------

  /** The first n nodes after numbering: keys below next, new ones increasing from low on. */
  predicate Numbered(nodes: seq<Family<string>>, nodes': seq<Family<string>>, n: nat, owner: int, low: int, next: int) {
    && |nodes'| == n <= |nodes|
    && (forall k :: 0 <= k < n ==>
                      && nodes'[k].children == nodes[k].children
                      && SavedRow(nodes[k].row, nodes'[k].row, owner, nodes[k].row.parent, low)
                      && 0 < nodes'[k].row.id < next)
    && (forall j, k :: 0 <= j < k < n && nodes[j].row.id == 0 && nodes[k].row.id == 0 ==> nodes'[j].row.id < nodes'[k].row.id)
  }

  lemma {:induction false} NumberedStep(nodes: seq<Family<string>>, nodes': seq<Family<string>>, n: nat, owner: int, low: int, next: int,
                     saved: Row<int>, next': int)
    requires Numbered(nodes, nodes', n, owner, low, next) && n < |nodes| && 0 < low <= next
    requires 0 <= nodes[n].row.id < low
    requires next' == if nodes[n].row.id == 0 then next + 1 else next
    requires saved == if nodes[n].row.id == 0 then nodes[n].row.(owner := owner, id := next) else nodes[n].row.(owner := owner)
    ensures var more := nodes' + [Family(saved, nodes[n].children)];
            && Numbered(nodes, more, n + 1, owner, low, next')
            && Heads(more) == Heads(nodes') + [saved]
  {
  }

  lemma {:induction false} NumberedThenRest(nodes: seq<Family<string>>, nodes': seq<Family<string>>, n: nat, owner: int, low: int, next: int)
    requires Numbered(nodes, nodes', n, owner, low, next) && IdsBelow(nodes, low)
    ensures KeysGiven(nodes, nodes' + nodes[n..], low, next)
  {
    var all := nodes' + nodes[n..];
    if DistinctNonZero(nodes) {
      forall i, j | 0 <= i < j < |all| && all[i].row.id == all[j].row.id ensures all[i].row.id == 0 {
        assert nodes[i].row.id == nodes[j].row.id ==> nodes[i].row.id == 0;
      }
    }
  }

  lemma {:induction false} DisksKeepKeys(nodes: seq<Family<string>>, numbered: seq<Family<string>>, nodes': seq<Family<string>>, owner: int, low: int, next: int)
    requires KeysGiven(nodes, numbered, low, next) && |nodes'| == |numbered|
    requires forall i :: 0 <= i < |numbered| ==>
                           && nodes'[i].row == numbered[i].row
                           && SavedChildren(numbered[i].children, nodes'[i].children, owner, numbered[i].row.id)
    ensures KeysGiven(nodes, nodes', low, next)
  {
  }

  lemma {:induction false} KeysStayBelow(nodes: seq<Family<string>>, nodes': seq<Family<string>>, low: int, next: int)
    requires KeysGiven(nodes, nodes', low, next) && IdsBelow(nodes, low) && 0 < low <= next
    ensures IdsBelow(nodes', next)
  {
  }

  lemma {:induction false} NumberedChildren(nodes: seq<Family<string>>, nodes': seq<Family<string>>, owner: int, low: int, next: int)
    requires Numbered(nodes, nodes', |nodes|, owner, low, next)
    ensures Children(nodes') == Children(nodes)
  {
    SameChildren(nodes', nodes);
  }

  lemma {:induction false} NumberedThenDisks(nodes: seq<Family<string>>, numbered: seq<Family<string>>, nodes': seq<Family<string>>,
                          owner: int, low: int, next: int)
    requires Numbered(nodes, numbered, |nodes|, owner, low, next) && IdsBelow(nodes, low)
    requires |nodes'| == |numbered|
    requires forall i :: 0 <= i < |numbered| ==>
                           && nodes'[i].row == numbered[i].row
                           && SavedChildren(numbered[i].children, nodes'[i].children, owner, numbered[i].row.id)
    ensures SavedNodes(nodes, nodes', owner, low)
    ensures DistinctNonZero(nodes) ==> DistinctIds(Heads(nodes'))
    ensures Heads(nodes') == Heads(numbered)
    ensures forall i :: 0 <= i < |nodes'| ==> 0 < nodes'[i].row.id < next
  {
  }

  lemma {:induction false} SameBlanks(rows: seq<Row<string>>, rows': seq<Row<string>>, t: Table<string>)
    requires |rows| == |rows'| && forall i :: 0 <= i < |rows| ==> rows[i].id == rows'[i].id
    ensures BlanksFit(rows, t, "") <==> BlanksFit(rows', t, "")
  {
  }

  lemma {:induction false} ChildIds(a: seq<Family<string>>, b: seq<Family<string>>)
    requires |a| == |b|
    requires forall i :: 0 <= i < |a| ==>
                           && |a[i].children| == |b[i].children|
                           && forall j :: 0 <= j < |a[i].children| ==> a[i].children[j].id == b[i].children[j].id
    ensures |Children(a)| == |Children(b)|
    ensures forall i :: 0 <= i < |Children(a)| ==> Children(a)[i].id == Children(b)[i].id
  {
    if a != [] {
      var n := |a| - 1;
      ChildIds(a[..n], b[..n]);
    }
  }

  lemma {:induction false} SameChildIds(nodes: seq<Family<string>>, nodes': seq<Family<string>>, owner: int)
    requires |nodes'| == |nodes|
    requires forall i :: 0 <= i < |nodes| ==> SavedChildren(nodes[i].children, nodes'[i].children, owner, nodes[i].row.id)
    ensures forall t :: BlanksFit(Children(nodes), t, "") <==> BlanksFit(Children(nodes'), t, "")
    ensures OwnedBy(Children(nodes'), owner)
  {
    ChildIds(nodes, nodes');
    forall t ensures BlanksFit(Children(nodes), t, "") <==> BlanksFit(Children(nodes'), t, "") {
      SameBlanks(Children(nodes), Children(nodes'), t);
    }
    forall i | 0 <= i < |Children(nodes')| ensures Children(nodes')[i].owner == owner {
      var r := Children(nodes')[i];
      ChildOf(nodes', r);
    }
  }

  lemma {:induction false} SameChildren(a: seq<Family<string>>, b: seq<Family<string>>)
    requires |a| == |b| && forall i :: 0 <= i < |a| ==> a[i].children == b[i].children
    ensures Children(a) == Children(b)
  {
    if a != [] {
      SameChildren(a[..|a| - 1], b[..|a| - 1]);
    }
  }

  lemma {:induction false} NodeKeysIssued(t: Table<int>, nodes: seq<Family<string>>, owner: int, low: int, next: int)
    requires low <= next && forall k :: k in t ==> 0 < k < low
    requires forall i :: 0 <= i < |nodes| ==> 0 < nodes[i].row.id < next
    ensures forall k :: k in Reconciled(t, Heads(nodes), owner) ==> 0 < k < next
  {
    forall k | k in Reconciled(t, Heads(nodes), owner) ensures 0 < k < next {
      RowsOfKeys(Heads(nodes), k);
    }
  }

  lemma {:induction false} CommitKeys(was: Database, started: Database, tx: Database, oldId: int, id: int, columns: Columns,
                   firstCluster: int, nextCluster: int, firstNode: int, nextNode: int, nodes: seq<Family<string>>)
    requires KeysBelow(was, firstCluster, firstNode) && firstCluster <= nextCluster && firstNode <= nextNode
    requires 0 < id < nextCluster
    requires started == was.(clusters := ClusterTable(was.clusters, oldId, id, columns))
    requires tx.clusters == started.clusters && tx.nodes == Reconciled(started.nodes, Heads(nodes), id)
    requires forall i :: 0 <= i < |nodes| ==> 0 < nodes[i].row.id < nextNode
    ensures KeysBelow(tx, nextCluster, nextNode)
  {
    NodeKeysIssued(was.nodes, nodes, id, firstNode, nextNode);
  }
}
