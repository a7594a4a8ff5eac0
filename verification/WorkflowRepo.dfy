/** Saving a workflow with its steps and their tasks, keeping the keys met and deleting the rest. */
module WorkflowRepos {
  import opened Store

  datatype Database = Database(workflows: map<int, string>, steps: Table<int>, tasks: Table<int>)

  /** Row i of after is row i of before with owner and parent filled in; a zero key becomes a number in [low, next), growing with i. */
  predicate Numbered(before: seq<Row<int>>, after: seq<Row<int>>, owner: int, low: int, next: int) {
    && |after| == |before|
    && (forall k :: 0 <= k < |after| ==>
                      && after[k].owner == owner && after[k].body == before[k].body
                      && 0 < after[k].id < next
                      && (if before[k].id == 0 then after[k].id >= low else after[k].id == before[k].id))
    && (forall j, k :: 0 <= j < k < |after| && before[j].id == 0 && before[k].id == 0 ==> after[j].id < after[k].id)
  }

  predicate KeysBelow(rows: seq<Row<int>>, next: int) {
    forall k :: 0 <= k < |rows| ==> 0 <= rows[k].id < next
  }

  predicate DistinctNonZero(rows: seq<Row<int>>) {
    forall i, j :: 0 <= i < j < |rows| && rows[i].id == rows[j].id ==> rows[i].id == 0
  }

  /** Keys that were distinct unless zero are distinct after a save. */
  lemma {:induction false} NumberedDistinct(before: seq<Row<int>>, after: seq<Row<int>>, owner: int, low: int, next: int)
    requires Numbered(before, after, owner, low, next) && KeysBelow(before, low) && DistinctNonZero(before)
    ensures DistinctIds(after)
  {
  }

  lemma {:induction false} NumberedStep(before: seq<Row<int>>, after: seq<Row<int>>, owner: int, low: int, next: int, row: Row<int>, saved: Row<int>, next': int)
    requires Numbered(before, after, owner, low, next) && 0 < low <= next && 0 <= row.id < low
    requires next' == if row.id == 0 then next + 1 else next
    requires saved.owner == owner && saved.body == row.body && saved.id == if row.id == 0 then next else row.id
    ensures Numbered(before + [row], after + [saved], owner, low, next')
  {
  }

  lemma {:induction false} NumberedPrefix(rows: seq<Row<int>>, j: nat, after: seq<Row<int>>, owner: int, low: int, next: int, saved: Row<int>, next': int)
    requires j < |rows| && Numbered(rows[..j], after, owner, low, next) && 0 < low <= next && 0 <= rows[j].id < low
    requires next' == if rows[j].id == 0 then next + 1 else next
    requires saved.owner == owner && saved.body == rows[j].body && saved.id == if rows[j].id == 0 then next else rows[j].id
    ensures Numbered(rows[..j + 1], after + [saved], owner, low, next')
  {
  }

  /** The saved steps: same shape, and every task points to its saved step. */
  predicate SameShape(before: seq<Family<int>>, after: seq<Family<int>>) {
    && |after| == |before|
    && forall i :: 0 <= i < |after| ==>
                     && after[i].row.parent == before[i].row.parent
                     && |after[i].children| == |before[i].children|
                     && forall j :: 0 <= j < |after[i].children| ==> after[i].children[j].parent == after[i].row.id
  }

  ghost predicate WorkflowSaved(was: Database, now: Database, id: int, body: string, before: seq<Family<int>>, after: seq<Family<int>>) {
    && now.workflows == was.workflows[id := body]
    && SameShape(before, after)
    && now.steps == Reconciled(was.steps, Heads(after), id)
    && now.tasks == Reconciled(was.tasks, Children(after), id)
  }

  /** Deletes the rows found before the save whose keys were not kept, one statement each. */
  method DeleteUnkept<K(==)>(existing: set<K>, keep: set<K>, t: Table<K>, faulty: bool) returns (ok: bool, t': Table<K>)
    ensures ok ==> t' == map k | k in t && (k !in existing || k in keep) :: t[k]
    ensures !faulty ==> ok
  {
    t' := t;
    var todo := existing;
    while todo != {}
      invariant todo <= existing
      invariant t' == map k | k in t && (k !in existing || k in todo || k in keep) :: t[k]
      decreases |todo|
    {
      var k :| k in todo;
      if k !in keep {
        var fail: bool := *;
        if faulty && fail {
          return false, t;
        }
        t' := t' - {k};
      }
      todo := todo - {k};
    }
    ok := true;
  }

  function OwnKeys(t: Table<int>, owner: int): set<int> {
    set k | k in t && t[k].owner == owner
  }

  function KeySet(rows: seq<Row<int>>): set<int> {
    set i | 0 <= i < |rows| :: rows[i].id
  }

  lemma {:induction false} KeptThenDeleted(was: Table<int>, rows: seq<Row<int>>, owner: int)
    requires OwnedBy(rows, owner)
    ensures var saved := was + RowsOf(rows);
            (map k | k in saved && (k !in OwnKeys(was, owner) || k in KeySet(rows)) :: saved[k]) == Reconciled(was, rows, owner)
  {
    forall k
      ensures k in RowsOf(rows) <==> k in KeySet(rows)
      ensures k in RowsOf(rows) ==> RowsOf(rows)[k].owner == owner
    {
      RowsOfKeys(rows, k);
    }
  }

  method SaveTasks(tasks: seq<Row<int>>, t: Table<int>, owner: int, parent: int, first: int, faulty: bool)
    returns (ok: bool, tasks': seq<Row<int>>, t': Table<int>, next: int)
    requires first > 0 && KeysBelow(tasks, first)
    ensures next >= first
    ensures ok ==>
              && Numbered(tasks, tasks', owner, first, next)
              && (forall j :: 0 <= j < |tasks'| ==> tasks'[j].parent == parent)
              && t' == t + RowsOf(tasks')
    ensures !faulty ==> ok
  {
    tasks', t', next := [], t, first;
    for j := 0 to |tasks|
      invariant next >= first
      invariant Numbered(tasks[..j], tasks', owner, first, next)
      invariant forall k :: 0 <= k < |tasks'| ==> tasks'[k].parent == parent
      invariant t' == t + RowsOf(tasks')
    {
      var saved, next';
      ok, saved, t', next' := SaveAuto(tasks[j].(owner := owner, parent := parent), t', next, faulty);
      if !ok {
        return;
      }
      NumberedPrefix(tasks, j, tasks', owner, first, next, saved, next');
      SumAppend(t, tasks', saved);
      tasks', next := tasks' + [saved], next';
    }
    assert tasks[..|tasks|] == tasks;
    ok := true;
  }

  lemma {:induction false} NumberedConcat(a: seq<Row<int>>, a': seq<Row<int>>, b: seq<Row<int>>, b': seq<Row<int>>, owner: int, low: int, mid: int, next: int)
    requires Numbered(a, a', owner, low, mid) && Numbered(b, b', owner, mid, next) && low <= mid <= next
    ensures Numbered(a + b, a' + b', owner, low, next)
  {
  }

  lemma {:induction false} SumConcat(t: Table<int>, a: seq<Row<int>>, b: seq<Row<int>>)
    ensures t + RowsOf(a) + RowsOf(b) == t + RowsOf(a + b)
  {
    if b == [] {
      assert a + b == a;
    } else {
      var n := |b| - 1;
      SumConcat(t, a, b[..n]);
      assert b == b[..n] + [b[n]] && a + b == a + b[..n] + [b[n]];
      SumAppend(t + RowsOf(a), b[..n], b[n]);
      SumAppend(t, a + b[..n], b[n]);
    }
  }

  lemma {:induction false} ChildrenAppend<K>(families: seq<Family<K>>, f: Family<K>)
    ensures Children(families + [f]) == Children(families) + f.children
  {
  }

  lemma {:induction false} ChildKeys(steps: seq<Family<int>>, i: nat, next: int)
    requires KeysBelow(Children(steps), next) && i < |steps|
    ensures KeysBelow(steps[i].children, next)
  {
    var n := |steps| - 1;
    var all := Children(steps);
    if i < n {
      assert forall k :: 0 <= k < |Children(steps[..n])| ==> Children(steps[..n])[k] == all[k];
      ChildKeys(steps[..n], i, next);
    } else {
      forall k | 0 <= k < |steps[n].children| ensures 0 <= steps[n].children[k].id < next {
        assert steps[n].children[k] == all[|Children(steps[..n])| + k];
      }
    }
  }

  predicate TableBelow(t: Table<int>, next: int) {
    next > 0 && forall k :: k in t ==> 0 < k < next
  }

  lemma {:induction false} KeysIssued(t: Table<int>, before: seq<Row<int>>, after: seq<Row<int>>, owner: int, low: int, next: int)
    requires TableBelow(t, low) && low <= next && Numbered(before, after, owner, low, next)
    ensures TableBelow(Reconciled(t, after, owner), next) && KeysBelow(after, next)
  {
    forall k | k in Reconciled(t, after, owner) ensures 0 < k < next {
      RowsOfKeys(after, k);
    }
  }

  class WorkflowRepo {
    const faulty: bool
    var db: Database
    var nextWorkflow: int
    var nextStep: int
    var nextTask: int

    /** Automatic keys are positive and were handed out before. */
    predicate Valid()
      reads this
    {
      && nextWorkflow > 0 && (forall k :: k in db.workflows ==> 0 < k < nextWorkflow)
      && TableBelow(db.steps, nextStep) && TableBelow(db.tasks, nextTask)
    }

    constructor (faulty: bool)
      ensures Valid() && this.faulty == faulty && db == Database(map[], map[], map[])
    {
      this.faulty, db := faulty, Database(map[], map[], map[]);
      nextWorkflow, nextStep, nextTask := 1, 1, 1;
    }

    /**
     All or nothing, as for a cluster: success replaces exactly this workflow's steps and tasks
     by those in memory, also when the workflow, its steps or its tasks are new. What was saved
     can be saved again.
     */
    method SaveWorkflow(id: int, body: string, steps: seq<Family<int>>)
      returns (ok: bool, id': int, steps': seq<Family<int>>)
      requires Valid() && 0 <= id < nextWorkflow
      requires KeysBelow(Heads(steps), nextStep) && KeysBelow(Children(steps), nextTask)
      modifies this
      ensures Valid() && nextWorkflow >= old(nextWorkflow) && nextStep >= old(nextStep) && nextTask >= old(nextTask)
      ensures !ok ==> db == old(db)
      ensures ok ==> 0 < id' < nextWorkflow && KeysBelow(Heads(steps'), nextStep) && KeysBelow(Children(steps'), nextTask)
      ensures ok ==>
                && id' == (if id == 0 then old(nextWorkflow) else id)
                && WorkflowSaved(old(db), db, id', body, steps, steps')
                && Numbered(Heads(steps), Heads(steps'), id', old(nextStep), nextStep)
                && Numbered(Children(steps), Children(steps'), id', old(nextTask), nextTask)
      ensures !faulty ==> ok
    {
      id', steps' := id, [];
      var fail: bool := *;
      if faulty && fail {
        return false, id', steps';
      }
      if id == 0 {
        id' := nextWorkflow;
        nextWorkflow := nextWorkflow + 1;
      }
      var stepTable, taskTable;
      ok, steps', stepTable, taskTable, nextStep, nextTask := Reconcile(steps, db.steps, db.tasks, id', nextStep, nextTask, faulty);
      if !ok {
        return;
      }
      fail := *;
      if faulty && fail {
        return false, id', steps';
      }
      KeysIssued(db.steps, Heads(steps), Heads(steps'), id', old(nextStep), nextStep);
      KeysIssued(db.tasks, Children(steps), Children(steps'), id', old(nextTask), nextTask);
      db := Database(db.workflows[id' := body], stepTable, taskTable);
    }
  }

  /** The steps and tasks saved so far, and the tables with them. */
  ghost predicate StepsSaved(before: seq<Family<int>>, after: seq<Family<int>>, owner: int, firstStep: int, nextStep: int,
                             firstTask: int, nextTask: int, stepTable: Table<int>, stepTable': Table<int>,
                             taskTable: Table<int>, taskTable': Table<int>) {
    && SameShape(before, after)
    && Numbered(Heads(before), Heads(after), owner, firstStep, nextStep)
    && Numbered(Children(before), Children(after), owner, firstTask, nextTask)
    && stepTable' == stepTable + RowsOf(Heads(after))
    && taskTable' == taskTable + RowsOf(Children(after))
  }

  lemma {:induction false} OneMoreStep(before: seq<Family<int>>, after: seq<Family<int>>, f: Family<int>, f': Family<int>, owner: int,
                    firstStep: int, nextStep: int, nextStep': int, firstTask: int, nextTask: int, nextTask': int,
                    stepTable: Table<int>, stepTable': Table<int>, taskTable: Table<int>, taskTable': Table<int>)
    requires StepsSaved(before, after, owner, firstStep, nextStep, firstTask, nextTask, stepTable, stepTable', taskTable, taskTable')
    requires 0 < firstStep <= nextStep && firstTask <= nextTask <= nextTask' && 0 <= f.row.id < firstStep
    requires nextStep' == if f.row.id == 0 then nextStep + 1 else nextStep
    requires f'.row == if f.row.id == 0 then f.row.(owner := owner, id := nextStep) else f.row.(owner := owner)
    requires Numbered(f.children, f'.children, owner, nextTask, nextTask')
    requires forall j :: 0 <= j < |f'.children| ==> f'.children[j].parent == f'.row.id
    ensures StepsSaved(before + [f], after + [f'], owner, firstStep, nextStep', firstTask, nextTask',
                       stepTable, stepTable'[f'.row.id := f'.row], taskTable, taskTable' + RowsOf(f'.children))
  {
    OneMoreShape(before, after, f, f');
    OneMoreHead(before, after, f, f', owner, firstStep, nextStep, nextStep', stepTable);
    NumberedConcat(Children(before), Children(after), f.children, f'.children, owner, firstTask, nextTask, nextTask');
    ChildrenAppend(before, f);
    ChildrenAppend(after, f');
    SumConcat(taskTable, Children(after), f'.children);
  }

  lemma {:induction false} OneMoreShape(before: seq<Family<int>>, after: seq<Family<int>>, f: Family<int>, f': Family<int>)
    requires SameShape(before, after)
    requires f'.row.parent == f.row.parent && |f'.children| == |f.children|
    requires forall j :: 0 <= j < |f'.children| ==> f'.children[j].parent == f'.row.id
    ensures SameShape(before + [f], after + [f'])
  {
  }

  lemma {:induction false} OneMoreHead(before: seq<Family<int>>, after: seq<Family<int>>, f: Family<int>, f': Family<int>, owner: int,
                    firstStep: int, nextStep: int, nextStep': int, stepTable: Table<int>)
    requires Numbered(Heads(before), Heads(after), owner, firstStep, nextStep)
    requires 0 < firstStep <= nextStep && 0 <= f.row.id < firstStep
    requires nextStep' == if f.row.id == 0 then nextStep + 1 else nextStep
    requires f'.row == if f.row.id == 0 then f.row.(owner := owner, id := nextStep) else f.row.(owner := owner)
    ensures Numbered(Heads(before + [f]), Heads(after + [f']), owner, firstStep, nextStep')
    ensures (stepTable + RowsOf(Heads(after)))[f'.row.id := f'.row] == stepTable + RowsOf(Heads(after + [f']))
  {
    NumberedStep(Heads(before), Heads(after), owner, firstStep, nextStep, f.row, f'.row, nextStep');
    assert Heads(before + [f]) == Heads(before) + [f.row];
    assert Heads(after + [f']) == Heads(after) + [f'.row];
    SumAppend(stepTable, Heads(after), f'.row);
  }

  /** Saves all steps and tasks, then deletes those found before that were not kept. */
  method Reconcile(steps: seq<Family<int>>, stepTable: Table<int>, taskTable: Table<int>, owner: int,
                   firstStep: int, firstTask: int, faulty: bool)
    returns (ok: bool, steps': seq<Family<int>>, stepTable': Table<int>, taskTable': Table<int>, nextStep: int, nextTask: int)
    requires firstStep > 0 && firstTask > 0
    requires KeysBelow(Heads(steps), firstStep) && KeysBelow(Children(steps), firstTask)
    ensures nextStep >= firstStep && nextTask >= firstTask
    ensures ok ==> SameShape(steps, steps')
    ensures ok ==> Numbered(Heads(steps), Heads(steps'), owner, firstStep, nextStep)
    ensures ok ==> Numbered(Children(steps), Children(steps'), owner, firstTask, nextTask)
    ensures ok ==> stepTable' == Reconciled(stepTable, Heads(steps'), owner)
    ensures ok ==> taskTable' == Reconciled(taskTable, Children(steps'), owner)
    ensures !faulty ==> ok
  {
    ok, steps', stepTable', taskTable', nextStep, nextTask := SaveSteps(steps, stepTable, taskTable, owner, firstStep, firstTask, faulty);
    if !ok {
      return;
    }
    KeptThenDeleted(stepTable, Heads(steps'), owner);
    KeptThenDeleted(taskTable, Children(steps'), owner);
    ok, stepTable' := DeleteUnkept(OwnKeys(stepTable, owner), KeySet(Heads(steps')), stepTable', faulty);
    if !ok {
      return;
    }
    ok, taskTable' := DeleteUnkept(OwnKeys(taskTable, owner), KeySet(Children(steps')), taskTable', faulty);
  }

  /** One round of the nested loop: a step, then its tasks with the step's key. */
  method SaveStep(f: Family<int>, stepTable: Table<int>, taskTable: Table<int>, owner: int, nextStep: int, nextTask: int, faulty: bool)
    returns (ok: bool, f': Family<int>, stepTable': Table<int>, taskTable': Table<int>, nextStep': int, nextTask': int)
    requires 0 <= f.row.id < nextStep && 0 < nextTask && KeysBelow(f.children, nextTask)
    ensures nextStep' >= nextStep && nextTask' >= nextTask
    ensures ok ==>
              && nextStep' == (if f.row.id == 0 then nextStep + 1 else nextStep)
              && f'.row == (if f.row.id == 0 then f.row.(owner := owner, id := nextStep) else f.row.(owner := owner))
              && Numbered(f.children, f'.children, owner, nextTask, nextTask')
              && (forall j :: 0 <= j < |f'.children| ==> f'.children[j].parent == f'.row.id)
              && stepTable' == stepTable[f'.row.id := f'.row]
              && taskTable' == taskTable + RowsOf(f'.children)
    ensures !faulty ==> ok
  {
    f', taskTable', nextTask' := f, taskTable, nextTask;
    var saved, tasks;
    ok, saved, stepTable', nextStep' := SaveAuto(f.row.(owner := owner), stepTable, nextStep, faulty);
    if !ok {
      return;
    }
    ok, tasks, taskTable', nextTask' := SaveTasks(f.children, taskTable, owner, saved.id, nextTask, faulty);
    f' := Family(saved, tasks);
  }

  lemma {:induction false} StepInput(steps: seq<Family<int>>, i: nat, firstStep: int, firstTask: int, nextTask: int)
    requires i < |steps| && firstTask <= nextTask
    requires KeysBelow(Heads(steps), firstStep) && KeysBelow(Children(steps), firstTask)
    ensures steps[..i + 1] == steps[..i] + [steps[i]]
    ensures 0 <= steps[i].row.id < firstStep && KeysBelow(steps[i].children, nextTask)
  {
    assert Heads(steps)[i] == steps[i].row;
    ChildKeys(steps, i, firstTask);
  }

  lemma {:induction false} NothingSaved(owner: int, firstStep: int, firstTask: int, stepTable: Table<int>, taskTable: Table<int>)
    ensures StepsSaved([], [], owner, firstStep, firstStep, firstTask, firstTask, stepTable, stepTable, taskTable, taskTable)
  {
  }

  /** The nested loop: each step is saved, then its tasks with the step's key. */
  method SaveSteps(steps: seq<Family<int>>, stepTable: Table<int>, taskTable: Table<int>, owner: int,
                   firstStep: int, firstTask: int, faulty: bool)
    returns (ok: bool, steps': seq<Family<int>>, stepTable': Table<int>, taskTable': Table<int>, nextStep: int, nextTask: int)
    requires firstStep > 0 && firstTask > 0
    requires KeysBelow(Heads(steps), firstStep) && KeysBelow(Children(steps), firstTask)
    ensures nextStep >= firstStep && nextTask >= firstTask
    ensures ok ==> StepsSaved(steps, steps', owner, firstStep, nextStep, firstTask, nextTask, stepTable, stepTable', taskTable, taskTable')
    ensures !faulty ==> ok
  {
    steps', stepTable', taskTable', nextStep, nextTask := [], stepTable, taskTable, firstStep, firstTask;
    NothingSaved(owner, firstStep, firstTask, stepTable, taskTable);
    assert steps[..0] == [];
    for i := 0 to |steps|
      invariant nextStep >= firstStep && nextTask >= firstTask
      invariant StepsSaved(steps[..i], steps', owner, firstStep, nextStep, firstTask, nextTask, stepTable, stepTable', taskTable, taskTable')
    {
      StepInput(steps, i, firstStep, firstTask, nextTask);
      ghost var done, stepsBefore, tasksBefore := steps[..i], stepTable', taskTable';
      var f, next', nextTask';
      ok, f, stepTable', taskTable', next', nextTask' := SaveStep(steps[i], stepTable', taskTable', owner, nextStep, nextTask, faulty);
      if !ok {
        return;
      }
      OneMoreStep(done, steps', steps[i], f, owner, firstStep, nextStep, next', firstTask, nextTask, nextTask',
                  stepTable, stepsBefore, taskTable, tasksBefore);
      steps', nextStep, nextTask := steps' + [f], next', nextTask';
    }
    assert steps[..|steps|] == steps;
    ok := true;
  }

  /** After the commit the workflow's steps and tasks are exactly those in memory, and each task row points to a step row of it. */
  lemma {:induction false} SaveWorkflowIsExact(was: Database, now: Database, id: int, body: string, before: seq<Family<int>>, after: seq<Family<int>>,
                                               firstStep: int, nextStep: int, firstTask: int, nextTask: int, task: Row<int>)
    requires WorkflowSaved(was, now, id, body, before, after)
    requires Numbered(Heads(before), Heads(after), id, firstStep, nextStep) && Numbered(Children(before), Children(after), id, firstTask, nextTask)
    requires KeysBelow(Heads(before), firstStep) && KeysBelow(Children(before), firstTask)
    requires DistinctNonZero(Heads(before)) && DistinctNonZero(Children(before))
    ensures OwnRows(now.steps, id) == RowSet(Heads(after))
    ensures OwnRows(now.tasks, id) == RowSet(Children(after))
    ensures task in OwnRows(now.tasks, id) ==> task.parent in now.steps && now.steps[task.parent].owner == id
  {
    NumberedDistinct(Heads(before), Heads(after), id, firstStep, nextStep);
    NumberedDistinct(Children(before), Children(after), id, firstTask, nextTask);
    OwnRowsAreMemory(was.steps, Heads(after), id);
    OwnRowsAreMemory(was.tasks, Children(after), id);
    if task in OwnRows(now.tasks, id) {
      assert task in RowSet(Children(after));
      ChildOf(after, task);
      var i :| 0 <= i < |after| && task in after[i].children;
      RowsOfDistinct(Heads(after), i);
    }
  }
}
