/** What a committed save means for the cluster's rows, for other clusters' rows, and for the next load. */
module ClusterRepoFacts {
  import opened Wrappers
  import opened Store
  import opened ClusterRepos

  /** Keys before a save are distinct, nodes without a key yet apart: what the caller hands in. */
  predicate DistinctGiven(m: Memory) {
    && DistinctIds(m.nodeGroups) && DistinctNonZero(m.nodes)
    && DistinctIds(m.cloudResources) && DistinctIds(m.securitys) && DistinctIds(Children(m.nodes))
  }

  /** Keys in memory are distinct, as the primary keys demand. */
  predicate DistinctKeys(m: Memory) {
    && DistinctIds(m.nodeGroups) && DistinctIds(Heads(m.nodes))
    && DistinctIds(m.cloudResources) && DistinctIds(m.securitys) && DistinctIds(Children(m.nodes))
  }

  predicate OwnedMemory(m: Memory) {
    && OwnedBy(m.nodeGroups, m.id) && OwnedBy(Heads(m.nodes), m.id)
    && OwnedBy(m.cloudResources, m.id) && OwnedBy(m.securitys, m.id) && OwnedBy(Children(m.nodes), m.id)
  }

  predicate ChildrenPoint(m: Memory) {
    forall i, j :: 0 <= i < |m.nodes| && 0 <= j < |m.nodes[i].children| ==> m.nodes[i].children[j].parent == m.nodes[i].row.id
  }

  /** A save makes everything in memory the cluster's own, and every disk point to its node, also to one that got its key just now. */
  lemma {:induction false} SaveOwnsAndPoints(before: Memory, m: Memory, newCluster: int, firstNode: int)
    requires MemorySaved(before, m, newCluster, firstNode)
    ensures OwnedMemory(m) && ChildrenPoint(m)
  {
    forall i | 0 <= i < |Children(m.nodes)| ensures Children(m.nodes)[i].owner == m.id {
      ChildOf(m.nodes, Children(m.nodes)[i]);
    }
  }

  lemma {:induction false} SaveKeepsDistinct(before: Memory, m: Memory, newCluster: int, firstNode: int)
    requires MemorySaved(before, m, newCluster, firstNode) && DistinctGiven(before)
    ensures DistinctKeys(m)
  {
    ChildIds(before.nodes, m.nodes);
  }

  /** After the commit the cluster's rows in all five tables are exactly those in memory. */
  lemma {:induction false} SaveIsExact(was: Database, now: Database, before: Memory, m: Memory, newCluster: int, firstNode: int)
    requires DatabaseSaved(was, now, before.id, m) && MemorySaved(before, m, newCluster, firstNode) && DistinctGiven(before)
    ensures OwnRows(now.nodeGroups, m.id) == RowSet(m.nodeGroups)
    ensures OwnRows(now.nodes, m.id) == RowSet(Heads(m.nodes))
    ensures OwnRows(now.cloudResources, m.id) == RowSet(m.cloudResources)
    ensures OwnRows(now.securitys, m.id) == RowSet(m.securitys)
    ensures OwnRows(now.disks, m.id) == RowSet(Children(m.nodes))
  {
    SaveOwnsAndPoints(before, m, newCluster, firstNode);
    SaveKeepsDistinct(before, m, newCluster, firstNode);
    OwnRowsAreMemory(was.nodeGroups, m.nodeGroups, m.id);
    OwnRowsAreMemory(was.nodes, Heads(m.nodes), m.id);
    OwnRowsAreMemory(was.cloudResources, m.cloudResources, m.id);
    OwnRowsAreMemory(was.securitys, m.securitys, m.id);
    OwnRowsAreMemory(was.disks, Children(m.nodes), m.id);
  }

  /** No key in memory is the key of another cluster's row. */
  predicate NoForeignKeys<K(==)>(rows: seq<Row<K>>, t: Table<K>, id: int) {
    forall i :: 0 <= i < |rows| ==> rows[i].id !in Others(t, id)
  }

  /** Other clusters keep all their rows exactly when no key in memory is one of theirs. */
  lemma {:induction false} OthersKeepTheirRows(was: Database, now: Database, before: Memory, m: Memory, newCluster: int, firstNode: int)
    requires DatabaseSaved(was, now, before.id, m) && MemorySaved(before, m, newCluster, firstNode)
    ensures (&& Others(now.nodeGroups, m.id) == Others(was.nodeGroups, m.id)
             && Others(now.nodes, m.id) == Others(was.nodes, m.id)
             && Others(now.cloudResources, m.id) == Others(was.cloudResources, m.id)
             && Others(now.securitys, m.id) == Others(was.securitys, m.id)
             && Others(now.disks, m.id) == Others(was.disks, m.id))
            <==>
            (&& NoForeignKeys(m.nodeGroups, was.nodeGroups, m.id)
             && NoForeignKeys(Heads(m.nodes), was.nodes, m.id)
             && NoForeignKeys(m.cloudResources, was.cloudResources, m.id)
             && NoForeignKeys(m.securitys, was.securitys, m.id)
             && NoForeignKeys(Children(m.nodes), was.disks, m.id))
  {
    SaveOwnsAndPoints(before, m, newCluster, firstNode);
    OthersUnchangedIff(was.nodeGroups, m.nodeGroups, m.id);
    OthersUnchangedIff(was.nodes, Heads(m.nodes), m.id);
    OthersUnchangedIff(was.cloudResources, m.cloudResources, m.id);
    OthersUnchangedIff(was.securitys, m.securitys, m.id);
    OthersUnchangedIff(was.disks, Children(m.nodes), m.id);
  }

  /** Each of the cluster's disk rows points to a node row of the same cluster, also to one inserted by this save. */
  lemma {:induction false} DisksPointToNodes(was: Database, now: Database, before: Memory, m: Memory, newCluster: int, firstNode: int, disk: Row<string>)
    requires DatabaseSaved(was, now, before.id, m) && MemorySaved(before, m, newCluster, firstNode) && DistinctGiven(before)
    requires disk in OwnRows(now.disks, m.id)
    ensures disk.parent in now.nodes && now.nodes[disk.parent].owner == m.id
  {
    SaveIsExact(was, now, before, m, newCluster, firstNode);
    SaveOwnsAndPoints(before, m, newCluster, firstNode);
    SaveKeepsDistinct(before, m, newCluster, firstNode);
    assert disk in RowSet(Children(m.nodes));
    ChildOf(m.nodes, disk);
    var i :| 0 <= i < |m.nodes| && disk in m.nodes[i].children;
    assert Heads(m.nodes)[i] in RowSet(Heads(m.nodes));
    RowsOfDistinct(Heads(m.nodes), i);
  }

  lemma {:induction false} MergedColumns(was: Columns, given: Columns)
    ensures was + given == given <==> was.Keys <= given.Keys
  {
  }

  /**
   The cluster row is there after a save exactly if the cluster was new or its row was there
   before. An updated row equals the memory exactly if no column it had is back at its zero
   value in memory: such a column keeps its old value.
   */
  lemma {:induction false} ClusterRowAfterSave(t: map<int, Columns>, oldId: int, id: int, columns: Columns)
    requires oldId != 0 ==> id == oldId
    ensures var now := ClusterTable(t, oldId, id, columns);
            && (id in now <==> oldId == 0 || oldId in t)
            && (oldId != 0 && id in now ==> (now[id] == columns <==> t[id].Keys <= columns.Keys))
  {
    if oldId != 0 && id in t {
      MergedColumns(t[id], columns);
    }
  }

  /** r holds the same lists as m, each in any order, with each node's disks under that node. */
  ghost predicate SameCluster(r: Loaded, m: Memory) {
    && RowSet(r.nodeGroups) == RowSet(m.nodeGroups)
    && RowSet(r.cloudResources) == RowSet(m.cloudResources)
    && RowSet(r.securitys) == RowSet(m.securitys)
    && RowSet(Heads(r.nodes)) == RowSet(Heads(m.nodes))
    && forall i, j :: 0 <= i < |r.nodes| && 0 <= j < |m.nodes| && r.nodes[i].row == m.nodes[j].row ==>
                        RowSet(r.nodes[i].children) == RowSet(m.nodes[j].children)
  }

  lemma {:induction false} DisksOfSavedNode(now: Database, m: Memory, j: nat)
    requires OwnRows(now.disks, m.id) == RowSet(Children(m.nodes)) && DistinctKeys(m) && ChildrenPoint(m)
    requires j < |m.nodes|
    ensures DisksOf(now, m.id, m.nodes[j].row.id) == RowSet(m.nodes[j].children)
  {
    forall d ensures d in DisksOf(now, m.id, m.nodes[j].row.id) <==> d in RowSet(m.nodes[j].children) {
      ChildOf(m.nodes, d);
      if d in RowSet(Children(m.nodes)) && d.parent == m.nodes[j].row.id {
        var k :| 0 <= k < |m.nodes| && d in m.nodes[k].children;
        assert Heads(m.nodes)[k].id == Heads(m.nodes)[j].id;
      }
    }
  }

  /** Loading after a save gives back the saved lists and the grouping of disks under nodes. */
  lemma {:induction false} LoadAfterSave(was: Database, now: Database, before: Memory, m: Memory, newCluster: int, firstNode: int, r: Loaded)
    requires DatabaseSaved(was, now, before.id, m) && MemorySaved(before, m, newCluster, firstNode) && DistinctGiven(before)
    requires m.id in now.clusters && Loads(now, m.id, r)
    ensures SameCluster(r, m)
  {
    SaveIsExact(was, now, before, m, newCluster, firstNode);
    SaveOwnsAndPoints(before, m, newCluster, firstNode);
    SaveKeepsDistinct(before, m, newCluster, firstNode);
    forall i, j | 0 <= i < |r.nodes| && 0 <= j < |m.nodes| && r.nodes[i].row == m.nodes[j].row
      ensures RowSet(r.nodes[i].children) == RowSet(m.nodes[j].children)
    {
      DisksOfSavedNode(now, m, j);
    }
  }

  // ---------- saving again ----------

  /** Keys that were distinct stay so, also through a failed save. */
  lemma {:induction false} TouchedKeepsDistinct(before: Memory, m: Memory, newCluster: int, firstNode: int, nextNode: int)
    requires MemoryTouched(before, m, newCluster, firstNode, nextNode) && DistinctGiven(before)
    ensures DistinctGiven(m)
  {
    SameIds(before.nodeGroups, m.nodeGroups);
    SameIds(before.cloudResources, m.cloudResources);
    SameIds(before.securitys, m.securitys);
    ChildIds(before.nodes, m.nodes);
  }

  lemma {:induction false} SameIds<K>(before: seq<Row<K>>, after: seq<Row<K>>)
    requires SameButOwner(before, after) && DistinctIds(before)
    ensures DistinctIds(after)
  {
    forall i | 0 <= i < |after| ensures after[i].id == before[i].id {
      assert after[i].(owner := before[i].owner) == before[i];
    }
  }

  /** The cluster's rows in the five tables are those in memory. */
  ghost predicate Holds(db: Database, m: Memory) {
    && OwnRows(db.nodeGroups, m.id) == RowSet(m.nodeGroups)
    && OwnRows(db.nodes, m.id) == RowSet(Heads(m.nodes))
    && OwnRows(db.cloudResources, m.id) == RowSet(m.cloudResources)
    && OwnRows(db.securitys, m.id) == RowSet(m.securitys)
    && OwnRows(db.disks, m.id) == RowSet(Children(m.nodes))
  }

  /** One more save: the row is missing from now on exactly if it was, or if this one failed after inserting it. */
  method SaveOnce(repo: ClusterRepo, c: Record, ghost lost: bool) returns (ok: bool, gone: bool)
    requires repo.Valid() && 0 <= c.id < repo.nextCluster && IdsBelow(c.nodes, repo.nextNode) && DistinctGiven(c.Values())
    requires lost <==> c.id != 0 && c.id !in repo.db.clusters
    modifies repo, c
    ensures repo.Valid() && 0 <= c.id < repo.nextCluster && IdsBelow(c.nodes, repo.nextNode) && DistinctGiven(c.Values())
    ensures gone == (!ok && old(c.id) == 0 && c.id != 0)
    ensures !repo.faulty && old(c.id) == 0 ==>
              (gone <==> !Fits(old(repo.db), old(c.nodeGroups), old(c.nodes), old(c.cloudResources), old(c.securitys)))
    ensures lost || gone <==> c.id != 0 && c.id !in repo.db.clusters
    ensures ok ==> c.id != 0 && Holds(repo.db, c.Values())
    ensures ok ==> forall r :: c.id in repo.db.clusters && Loads(repo.db, c.id, r) ==> SameCluster(r, c.Values())
  {
    ghost var was, before, newCluster, firstNode := repo.db, c.Values(), repo.nextCluster, repo.nextNode;
    var id := c.id;
    ok := repo.Save(c);
    gone := !ok && id == 0 && c.id != 0;
    TouchedKeepsDistinct(before, c.Values(), newCluster, firstNode, repo.nextNode);
    if ok {
      ClusterRowAfterSave(was.clusters, before.id, c.id, c.columns);
      SaveIsExact(was, repo.db, before, c.Values(), newCluster, firstNode);
      forall r | c.id in repo.db.clusters && Loads(repo.db, c.id, r) ensures SameCluster(r, c.Values()) {
        LoadAfterSave(was, repo.db, before, c.Values(), newCluster, firstNode, r);
      }
    }
  }

  /**
   A new cluster saved n times, whatever fails: its row is missing exactly if a save failed after
   inserting it, because the key stays in memory and later saves only update. They still commit
   the children, and no load finds the cluster; otherwise a load after a good save gives it back.
   */
  method SaveRepeatedly(repo: ClusterRepo, c: Record, n: nat) returns (lost: bool, last: bool, loaded: Option<Loaded>)
    requires repo.Valid() && c.id == 0 && IdsBelow(c.nodes, repo.nextNode) && DistinctGiven(c.Values())
    modifies repo, c
    ensures lost <==> c.id != 0 && c.id !in repo.db.clusters
    ensures last ==> Holds(repo.db, c.Values())
    ensures lost ==> loaded.None?
    ensures last && !lost ==> loaded.Some? && SameCluster(loaded.value, c.Values())
  {
    lost, last := false, false;
    for i := 0 to n
      invariant repo.Valid() && 0 <= c.id < repo.nextCluster && IdsBelow(c.nodes, repo.nextNode) && DistinctGiven(c.Values())
      invariant lost <==> c.id != 0 && c.id !in repo.db.clusters
      invariant last ==> c.id != 0 && Holds(repo.db, c.Values())
      invariant last ==> forall r :: c.id in repo.db.clusters && Loads(repo.db, c.id, r) ==> SameCluster(r, c.Values())
    {
      var gone;
      last, gone := SaveOnce(repo, c, lost);
      lost := lost || gone;
    }
    loaded := repo.Get(c.id);
  }

  /** Two new disks without a key cannot be saved, whatever the database holds. */
  lemma {:induction false} TwoBlankDisksDoNotFit(was: Database, m: Memory, i: nat, j: nat)
    requires i < j < |Children(m.nodes)| && Children(m.nodes)[i].id == "" == Children(m.nodes)[j].id
    ensures !Fits(was, m.nodeGroups, m.nodes, m.cloudResources, m.securitys)
  {
  }

  /** The nodes a cloud cluster starts with: three, the second and third with one new disk each. */
  function InitialCloudNodes(groupDisk: string): seq<Family<string>> {
    var disk := Row("", 0, 0, groupDisk);
    [Family(Row(0, 0, 0, "node1"), []), Family(Row(0, 0, 0, "node2"), [disk]), Family(Row(0, 0, 0, "node3"), [disk])]
  }

  /** So the first save of a freshly started cloud cluster cannot succeed. */
  lemma {:induction false} InitialCloudNodesDoNotFit(was: Database, m: Memory, disk: string)
    requires m.nodes == InitialCloudNodes(disk)
    ensures !Fits(was, m.nodeGroups, m.nodes, m.cloudResources, m.securitys)
  {
    var f := InitialCloudNodes(disk);
    assert f[..2] == [f[0], f[1]] && f[..2][..1] == [f[0]] && [f[0]][..0] == [];
    assert Children([f[0]]) == [];
    assert Children([f[0], f[1]]) == [] + f[1].children;
    assert Children(f) == Children(f[..2]) + f[2].children;
    TwoBlankDisksDoNotFit(was, m, 0, 1);
  }
}
