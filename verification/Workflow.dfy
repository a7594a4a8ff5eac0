/** Visiting the steps and tasks of a workflow in order, by successive searches and by sorting. */
module Workflows {
  import opened Wrappers

  datatype Task = Task(name: string, order: int)

  datatype WorkflowStep = WorkflowStep(name: string, order: int, tasks: seq<Task>)

  type ByOrder<!T> = T -> int

  // ---------- the successor search ----------

  predicate Above(x: int, lo: Option<int>) { lo.None? || x > lo.value }

  /** The first item of least order above lo. */
  function NextOf<T>(xs: seq<T>, order: ByOrder<T>, lo: Option<int>): Option<T> {
    if xs == [] then None
    else
      var best := NextOf(xs[..|xs| - 1], order, lo);
      var x := xs[|xs| - 1];
      if Above(order(x), lo) && (best.None? || order(x) < order(best.value)) then Some(x) else best
  }

  /** The loop shared by the four searches: keep the best item so far. */
  method Search<T>(xs: seq<T>, order: ByOrder<T>, lo: Option<int>) returns (best: Option<T>)
    ensures best == NextOf(xs, order, lo)
  {
    best := None;
    for i := 0 to |xs|
      invariant best == NextOf(xs[..i], order, lo)
    {
      assert xs[..i + 1][..i] == xs[..i];
      if Above(order(xs[i]), lo) && (best.None? || order(xs[i]) < order(best.value)) {
        best := Some(xs[i]);
      }
    }
    assert xs[..|xs|] == xs;
  }

  function StepOrder(): ByOrder<WorkflowStep> { (s: WorkflowStep) => s.order }

  function TaskOrder(): ByOrder<Task> { (t: Task) => t.order }

  method GetFirstStep(steps: seq<WorkflowStep>) returns (r: Option<WorkflowStep>)
    ensures r == NextOf(steps, StepOrder(), None)
  {
    r := Search(steps, StepOrder(), None);
  }

  method GetNextStep(steps: seq<WorkflowStep>, s: WorkflowStep) returns (r: Option<WorkflowStep>)
    ensures r == NextOf(steps, StepOrder(), Some(s.order))
  {
    r := Search(steps, StepOrder(), Some(s.order));
  }

  method GetFirstTask(s: WorkflowStep) returns (r: Option<Task>)
    ensures r == NextOf(s.tasks, TaskOrder(), None)
  {
    r := Search(s.tasks, TaskOrder(), None);
  }

  method GetNextTask(s: WorkflowStep, t: Task) returns (r: Option<Task>)
    ensures r == NextOf(s.tasks, TaskOrder(), Some(t.order))
  {
    r := Search(s.tasks, TaskOrder(), Some(t.order));
  }

  /** What a search answers: nothing if no item lies above, else an item of least order above, the first of its order. */
  lemma {:induction false} NextOfIsLeast<T>(xs: seq<T>, order: ByOrder<T>, lo: Option<int>)
    ensures NextOf(xs, order, lo).None? <==> forall i :: 0 <= i < |xs| ==> !Above(order(xs[i]), lo)
    ensures NextOf(xs, order, lo).Some? ==>
              exists i :: && 0 <= i < |xs| && xs[i] == NextOf(xs, order, lo).value && Above(order(xs[i]), lo)
                          && (forall j :: 0 <= j < |xs| && Above(order(xs[j]), lo) ==> order(xs[i]) <= order(xs[j]))
                          && (forall j :: 0 <= j < i && Above(order(xs[j]), lo) ==> order(xs[i]) < order(xs[j]))
  {
    if xs != [] {
      var n := |xs| - 1;
      NextOfIsLeast(xs[..n], order, lo);
      if Above(order(xs[n]), lo) && (NextOf(xs[..n], order, lo).None? || order(xs[n]) < order(NextOf(xs[..n], order, lo).value)) {
        assert xs[n] == NextOf(xs, order, lo).value;
      }
    }
  }

  // ---------- the chain of searches ----------

  /** How many items lie above lo: the measure of the iteration. */
  function CountAbove<T>(xs: seq<T>, order: ByOrder<T>, lo: Option<int>): nat {
    if xs == [] then 0
    else CountAbove(xs[..|xs| - 1], order, lo) + (if Above(order(xs[|xs| - 1]), lo) then 1 else 0)
  }

  lemma {:induction false} CountShrinks<T>(xs: seq<T>, order: ByOrder<T>, lo: Option<int>, hi: int)
    requires Above(hi, lo)
    ensures CountAbove(xs, order, Some(hi)) <= CountAbove(xs, order, lo)
    ensures (exists i :: 0 <= i < |xs| && order(xs[i]) == hi) ==> CountAbove(xs, order, Some(hi)) < CountAbove(xs, order, lo)
  {
    if xs != [] {
      var n := |xs| - 1;
      CountShrinks(xs[..n], order, lo, hi);
      if i :| 0 <= i < |xs| && order(xs[i]) == hi {
        assert i < n ==> order(xs[..n][i]) == hi;
      }
    }
  }

  lemma {:induction false} NextShrinks<T>(xs: seq<T>, order: ByOrder<T>, lo: Option<int>)
    requires NextOf(xs, order, lo).Some?
    ensures CountAbove(xs, order, Some(order(NextOf(xs, order, lo).value))) < CountAbove(xs, order, lo)
  {
    NextOfIsLeast(xs, order, lo);
    CountShrinks(xs, order, lo, order(NextOf(xs, order, lo).value));
  }

  /** The items met by starting above lo and searching on from each item met. */
  function Chain<T>(xs: seq<T>, order: ByOrder<T>, lo: Option<int>): seq<T>
    decreases CountAbove(xs, order, lo)
  {
    var next := NextOf(xs, order, lo);
    if next.None? then []
    else
      NextShrinks(xs, order, lo);
      [next.value] + Chain(xs, order, Some(order(next.value)))
  }

  function TasksOf(steps: seq<WorkflowStep>): seq<Task> {
    if steps == [] then [] else TasksOf(steps[..|steps| - 1]) + Chain(steps[|steps| - 1].tasks, TaskOrder(), None)
  }

  method VisitTasks(s: WorkflowStep) returns (visited: seq<Task>)
    ensures visited == Chain(s.tasks, TaskOrder(), None)
  {
    visited := [];
    var task := GetFirstTask(s);
    ghost var lo: Option<int> := None;
    while task.Some?
      invariant task == NextOf(s.tasks, TaskOrder(), lo)
      invariant visited + Chain(s.tasks, TaskOrder(), lo) == Chain(s.tasks, TaskOrder(), None)
      decreases CountAbove(s.tasks, TaskOrder(), lo)
    {
      NextShrinks(s.tasks, TaskOrder(), lo);
      ChainAppend(visited, s.tasks, TaskOrder(), lo, task.value);
      visited := visited + [task.value];
      lo := Some(task.value.order);
      task := GetNextTask(s, task.value);
    }
  }

  lemma {:induction false} TasksOfAppend(steps: seq<WorkflowStep>, s: WorkflowStep)
    ensures TasksOf(steps + [s]) == TasksOf(steps) + Chain(s.tasks, TaskOrder(), None)
  {
  }

  lemma {:induction false} ChainAppend<T>(done: seq<T>, xs: seq<T>, order: ByOrder<T>, lo: Option<int>, x: T)
    requires NextOf(xs, order, lo) == Some(x)
    ensures done + Chain(xs, order, lo) == (done + [x]) + Chain(xs, order, Some(order(x)))
  {
  }

  /** First and next step, and within each step first and next task, until no next one is found. */
  method Visit(steps: seq<WorkflowStep>) returns (visited: seq<Task>)
    ensures visited == TasksOf(Chain(steps, StepOrder(), None))
  {
    visited := [];
    var step := GetFirstStep(steps);
    ghost var lo: Option<int>, done: seq<WorkflowStep> := None, [];
    while step.Some?
      invariant step == NextOf(steps, StepOrder(), lo)
      invariant done + Chain(steps, StepOrder(), lo) == Chain(steps, StepOrder(), None)
      invariant visited == TasksOf(done)
      decreases CountAbove(steps, StepOrder(), lo)
    {
      NextShrinks(steps, StepOrder(), lo);
      var tasks := VisitTasks(step.value);
      TasksOfAppend(done, step.value);
      ChainAppend(done, steps, StepOrder(), lo, step.value);
      visited := visited + tasks;
      done := done + [step.value];
      lo := Some(step.value.order);
      step := GetNextStep(steps, step.value);
    }
    assert done == Chain(steps, StepOrder(), None);
  }

  // ---------- sorting ----------

  predicate Sorted<T>(xs: seq<T>, order: ByOrder<T>) {
    forall i, j :: 0 <= i < j < |xs| ==> order(xs[i]) <= order(xs[j])
  }

  /** What the library sort promises: the same items, in order; items of equal order in any order. */
  ghost predicate SortOf<T>(xs: seq<T>, order: ByOrder<T>, ys: seq<T>) {
    multiset(ys) == multiset(xs) && Sorted(ys, order)
  }

  predicate DistinctOrders<T>(xs: seq<T>, order: ByOrder<T>) {
    forall i, j :: 0 <= i < j < |xs| ==> order(xs[i]) != order(xs[j])
  }

  function Insert<T>(ys: seq<T>, order: ByOrder<T>, x: T): seq<T> {
    if ys == [] || order(ys[|ys| - 1]) <= order(x) then ys + [x]
    else Insert(ys[..|ys| - 1], order, x) + [ys[|ys| - 1]]
  }

  lemma {:induction false} InsertKeeps<T>(ys: seq<T>, order: ByOrder<T>, x: T)
    ensures multiset(Insert(ys, order, x)) == multiset(ys) + multiset{x}
  {
    if !(ys == [] || order(ys[|ys| - 1]) <= order(x)) {
      var n := |ys| - 1;
      InsertKeeps(ys[..n], order, x);
      assert ys == ys[..n] + [ys[n]];
    }
  }

  /** Every item of the result is the new one or an old one. */
  lemma {:induction false} InsertedIsOldOrNew<T>(ys: seq<T>, order: ByOrder<T>, x: T)
    ensures forall y :: y in Insert(ys, order, x) ==> y == x || y in ys
  {
    InsertKeeps(ys, order, x);
    forall y | y in Insert(ys, order, x) && y != x ensures y in ys {
      assert y in multiset(Insert(ys, order, x));
    }
  }

  lemma {:induction false} InsertSorts<T>(ys: seq<T>, order: ByOrder<T>, x: T)
    requires Sorted(ys, order)
    ensures Sorted(Insert(ys, order, x), order)
  {
    if !(ys == [] || order(ys[|ys| - 1]) <= order(x)) {
      var n := |ys| - 1;
      InsertSorts(ys[..n], order, x);
      InsertedIsOldOrNew(ys[..n], order, x);
      var front := Insert(ys[..n], order, x);
      forall i | 0 <= i < |front| ensures order(front[i]) <= order(ys[n]) {
        assert front[i] in front;
      }
    }
  }

  method SortByOrder<T>(xs: seq<T>, order: ByOrder<T>) returns (ys: seq<T>)
    ensures SortOf(xs, order, ys)
  {
    ys := [];
    for i := 0 to |xs|
      invariant SortOf(xs[..i], order, ys)
    {
      InsertKeeps(ys, order, xs[i]);
      InsertSorts(ys, order, xs[i]);
      assert xs[..i + 1] == xs[..i] + [xs[i]];
      ys := Insert(ys, order, xs[i]);
    }
    assert xs[..|xs|] == xs;
  }

  /** tasks lists the tasks of the steps, taken in the given order of steps, each step's tasks sorted. */
  ghost predicate Flattened(steps: seq<WorkflowStep>, tasks: seq<Task>)
    decreases |steps|
  {
    if steps == [] then tasks == []
    else exists n :: 0 <= n <= |tasks| && Flattened(steps[..|steps| - 1], tasks[..n])
                     && SortOf(steps[|steps| - 1].tasks, TaskOrder(), tasks[n..])
  }

  /** All tasks, by order of step and then of task. */
  ghost predicate ByStepAndTask(steps: seq<WorkflowStep>, tasks: seq<Task>) {
    exists sorted: seq<WorkflowStep> :: SortOf(steps, StepOrder(), sorted) && Flattened(sorted, tasks)
  }

  method GetAllTasksByOrder(steps: seq<WorkflowStep>) returns (allTasks: seq<Task>)
    ensures ByStepAndTask(steps, allTasks)
  {
    var sorted := SortByOrder(steps, StepOrder());
    allTasks := [];
    for i := 0 to |sorted|
      invariant Flattened(sorted[..i], allTasks)
    {
      var tasks := SortByOrder(sorted[i].tasks, TaskOrder());
      assert sorted[..i + 1][..i] == sorted[..i];
      var more := allTasks + tasks;
      assert more[..|allTasks|] == allTasks && more[|allTasks|..] == tasks;
      allTasks := more;
    }
    assert sorted[..|sorted|] == sorted;
  }

  // ---------- the two agree ----------

  predicate StrictlySorted<T>(xs: seq<T>, order: ByOrder<T>) {
    forall i, j :: 0 <= i < j < |xs| ==> order(xs[i]) < order(xs[j])
  }

  lemma {:induction false} ChainStrict<T>(xs: seq<T>, order: ByOrder<T>, lo: Option<int>)
    ensures StrictlySorted(Chain(xs, order, lo), order)
    ensures forall i :: 0 <= i < |Chain(xs, order, lo)| ==> Above(order(Chain(xs, order, lo)[i]), lo)
    decreases CountAbove(xs, order, lo)
  {
    var next := NextOf(xs, order, lo);
    if next.Some? {
      NextShrinks(xs, order, lo);
      NextOfIsLeast(xs, order, lo);
      ChainStrict(xs, order, Some(order(next.value)));
    }
  }

  lemma {:induction false} MemberOfBoth<T>(xs: seq<T>, ys: seq<T>, x: T)
    requires multiset(ys) == multiset(xs)
    ensures x in xs <==> x in ys
  {
    assert x in xs <==> x in multiset(xs);
    assert x in ys <==> x in multiset(ys);
  }

  /** In a strictly sorted permutation, the successor of position k - 1 is position k. */
  lemma {:induction false} NextInPermutation<T>(xs: seq<T>, order: ByOrder<T>, ys: seq<T>, k: nat)
    requires multiset(ys) == multiset(xs) && StrictlySorted(ys, order) && k <= |ys|
    ensures var lo := if k == 0 then None else Some(order(ys[k - 1]));
            NextOf(xs, order, lo) == if k == |ys| then None else Some(ys[k])
  {
    var lo := if k == 0 then None else Some(order(ys[k - 1]));
    NextOfIsLeast(xs, order, lo);
    if k < |ys| {
      MemberOfBoth(xs, ys, ys[k]);
      var at :| 0 <= at < |xs| && xs[at] == ys[k];
      var x := NextOf(xs, order, lo).value;
      MemberOfBoth(xs, ys, x);
      var j :| 0 <= j < |ys| && ys[j] == x;
      assert Above(order(ys[j]), lo) && order(ys[j]) <= order(ys[k]);
    } else {
      forall i | 0 <= i < |xs| ensures !Above(order(xs[i]), lo) {
        MemberOfBoth(xs, ys, xs[i]);
        var j :| 0 <= j < |ys| && ys[j] == xs[i];
      }
    }
  }

  lemma {:induction false} ChainIsSuffix<T>(xs: seq<T>, order: ByOrder<T>, ys: seq<T>, k: nat)
    requires multiset(ys) == multiset(xs) && StrictlySorted(ys, order) && k <= |ys|
    ensures Chain(xs, order, if k == 0 then None else Some(order(ys[k - 1]))) == ys[k..]
    decreases |ys| - k
  {
    NextInPermutation(xs, order, ys, k);
    if k < |ys| {
      var next := Some(order(ys[k]));
      ChainIsSuffix(xs, order, ys, k + 1);
      assert Chain(xs, order, next) == ys[k + 1..];
      assert ys[k..] == [ys[k]] + ys[k + 1..];
    }
  }

  lemma {:induction false} DistinctIsShared<T>(xs: seq<T>, order: ByOrder<T>, ys: seq<T>)
    requires multiset(ys) == multiset(xs) && DistinctOrders(ys, order)
    ensures DistinctOrders(xs, order)
  {
    forall i, j | 0 <= i < j < |xs| ensures order(xs[i]) != order(xs[j]) {
      if order(xs[i]) == order(xs[j]) {
        MemberOfBoth(xs, ys, xs[i]);
        MemberOfBoth(xs, ys, xs[j]);
        var a :| 0 <= a < |ys| && ys[a] == xs[i];
        var b :| 0 <= b < |ys| && ys[b] == xs[j];
        assert a == b && xs[i] == xs[j];
        TwiceInMultiset(xs, i, j);
        OnceInMultiset(ys, order, xs[i]);
      }
    }
  }

  lemma {:induction false} TwiceInMultiset<T>(xs: seq<T>, i: nat, j: nat)
    requires i < j < |xs| && xs[i] == xs[j]
    ensures multiset(xs)[xs[i]] >= 2
  {
    assert xs == xs[..i] + [xs[i]] + xs[i + 1..j] + [xs[j]] + xs[j + 1..];
  }

  lemma {:induction false} OnceInMultiset<T>(ys: seq<T>, order: ByOrder<T>, x: T)
    requires DistinctOrders(ys, order)
    ensures multiset(ys)[x] <= 1
  {
    if ys != [] {
      var n := |ys| - 1;
      OnceInMultiset(ys[..n], order, x);
      assert ys == ys[..n] + [ys[n]];
    }
  }

  /** On one level, searching on and on gives the sorted list exactly when the orders are distinct. */
  lemma {:induction false} ChainIsSortIff<T>(xs: seq<T>, order: ByOrder<T>, ys: seq<T>)
    requires SortOf(xs, order, ys)
    ensures Chain(xs, order, None) == ys <==> DistinctOrders(xs, order)
  {
    if DistinctOrders(xs, order) {
      DistinctIsShared(ys, order, xs);
      assert StrictlySorted(ys, order);
      ChainIsSuffix(xs, order, ys, 0);
    }
    if Chain(xs, order, None) == ys {
      ChainStrict(xs, order, None);
      DistinctIsShared(xs, order, ys);
    }
  }

  predicate AllDistinct(steps: seq<WorkflowStep>) {
    && DistinctOrders(steps, StepOrder())
    && forall i :: 0 <= i < |steps| ==> DistinctOrders(steps[i].tasks, TaskOrder())
  }

  lemma {:induction false} FlattenedIsTasksOf(steps: seq<WorkflowStep>, tasks: seq<Task>)
    requires Flattened(steps, tasks) && forall i :: 0 <= i < |steps| ==> DistinctOrders(steps[i].tasks, TaskOrder())
    ensures tasks == TasksOf(steps)
    decreases |steps|
  {
    if steps != [] {
      var m := |steps| - 1;
      var n :| 0 <= n <= |tasks| && Flattened(steps[..m], tasks[..n]) && SortOf(steps[m].tasks, TaskOrder(), tasks[n..]);
      FlattenedIsTasksOf(steps[..m], tasks[..n]);
      ChainIsSortIff(steps[m].tasks, TaskOrder(), tasks[n..]);
      assert tasks == tasks[..n] + tasks[n..];
    }
  }

  // ---------- for any orders ----------

  function TaskBag(steps: seq<WorkflowStep>): multiset<Task> {
    if steps == [] then multiset{} else TaskBag(steps[..|steps| - 1]) + multiset(steps[|steps| - 1].tasks)
  }

  lemma {:induction false} FlattenedBag(steps: seq<WorkflowStep>, tasks: seq<Task>)
    requires Flattened(steps, tasks)
    ensures multiset(tasks) == TaskBag(steps)
    decreases |steps|
  {
    if steps != [] {
      var m := |steps| - 1;
      var n :| 0 <= n <= |tasks| && Flattened(steps[..m], tasks[..n]) && SortOf(steps[m].tasks, TaskOrder(), tasks[n..]);
      FlattenedBag(steps[..m], tasks[..n]);
      assert tasks == tasks[..n] + tasks[n..];
    }
  }

  lemma {:induction false} TaskBagRemove(steps: seq<WorkflowStep>, i: nat)
    requires i < |steps|
    ensures TaskBag(steps) == TaskBag(steps[..i] + steps[i + 1..]) + multiset(steps[i].tasks)
  {
    var m := |steps| - 1;
    if i == m {
      assert steps[..i] + steps[i + 1..] == steps[..m];
    } else {
      TaskBagRemove(steps[..m], i);
      RemoveBeforeLast(steps, i);
      TaskBagAppend(steps[..m][..i] + steps[..m][i + 1..], steps[m]);
    }
  }

  lemma {:induction false} RemoveBeforeLast(steps: seq<WorkflowStep>, i: nat)
    requires i < |steps| - 1
    ensures var m := |steps| - 1;
            steps[..i] + steps[i + 1..] == steps[..m][..i] + steps[..m][i + 1..] + [steps[m]]
  {
  }

  lemma {:induction false} TaskBagAppend(steps: seq<WorkflowStep>, s: WorkflowStep)
    ensures TaskBag(steps + [s]) == TaskBag(steps) + multiset(s.tasks)
  {
    assert (steps + [s])[..|steps|] == steps;
  }

  lemma {:induction false} RemoveEqual<T>(xs: seq<T>, ys: seq<T>, i: nat)
    requires xs != [] && multiset(xs) == multiset(ys) && i < |ys| && ys[i] == xs[|xs| - 1]
    ensures multiset(xs[..|xs| - 1]) == multiset(ys[..i] + ys[i + 1..])
  {
    assert xs == xs[..|xs| - 1] + [xs[|xs| - 1]];
    assert ys == ys[..i] + [ys[i]] + ys[i + 1..];
    assert multiset(ys[..i] + ys[i + 1..]) == multiset(ys) - multiset{ys[i]};
  }

  lemma {:induction false} SameBag(xs: seq<WorkflowStep>, ys: seq<WorkflowStep>)
    requires multiset(xs) == multiset(ys)
    ensures TaskBag(xs) == TaskBag(ys)
  {
    if xs == [] {
      assert |multiset(ys)| == 0;
    } else {
      var m := |xs| - 1;
      MemberOfBoth(ys, xs, xs[m]);
      var i :| 0 <= i < |ys| && ys[i] == xs[m];
      TaskBagRemove(ys, i);
      RemoveEqual(xs, ys, i);
      SameBag(xs[..m], ys[..i] + ys[i + 1..]);
    }
  }

  /** For any orders, equal ones included, the list holds every task of every step exactly as often as the workflow does. */
  lemma {:induction false} AllTasksKept(steps: seq<WorkflowStep>, tasks: seq<Task>)
    requires ByStepAndTask(steps, tasks)
    ensures multiset(tasks) == TaskBag(steps)
  {
    var sorted: seq<WorkflowStep> :| SortOf(steps, StepOrder(), sorted) && Flattened(sorted, tasks);
    FlattenedBag(sorted, tasks);
    SameBag(sorted, steps);
  }

  // ---------- when the iteration visits everything ----------

  /** The items whose order no earlier item has: those the searches can meet. */
  function Firsts<T>(xs: seq<T>, order: ByOrder<T>): seq<T> {
    if xs == [] then []
    else
      var n := |xs| - 1;
      Firsts(xs[..n], order) + if exists i :: 0 <= i < n && order(xs[i]) == order(xs[n]) then [] else [xs[n]]
  }

  lemma {:induction false} FirstOrLater<T>(xs: seq<T>, order: ByOrder<T>, i: nat)
    requires i < |xs|
    ensures xs[i] in Firsts(xs, order) || exists j :: 0 <= j < i && order(xs[j]) == order(xs[i])
  {
    var n := |xs| - 1;
    if i < n {
      FirstOrLater(xs[..n], order, i);
    }
  }

  lemma {:induction false} FirstsAreItems<T>(xs: seq<T>, order: ByOrder<T>, x: T)
    requires x in Firsts(xs, order)
    ensures x in xs
  {
    var n := |xs| - 1;
    if x in Firsts(xs[..n], order) {
      FirstsAreItems(xs[..n], order, x);
    }
  }

  lemma {:induction false} FirstsDistinct<T>(xs: seq<T>, order: ByOrder<T>)
    ensures DistinctOrders(Firsts(xs, order), order)
  {
    if xs != [] {
      var n := |xs| - 1;
      FirstsDistinct(xs[..n], order);
      forall x | x in Firsts(xs[..n], order) ensures exists i :: 0 <= i < n && xs[i] == x {
        FirstsAreItems(xs[..n], order, x);
      }
      DistinctAppend(Firsts(xs[..n], order), order, xs[n]);
    }
  }

  lemma {:induction false} DistinctAppend<T>(xs: seq<T>, order: ByOrder<T>, x: T)
    requires DistinctOrders(xs, order)
    ensures (forall y :: y in xs ==> order(y) != order(x)) ==> DistinctOrders(xs + [x], order)
  {
  }

  /** There are as many as items only if the orders are distinct. */
  lemma {:induction false} FirstsSize<T>(xs: seq<T>, order: ByOrder<T>)
    ensures |Firsts(xs, order)| <= |xs|
    ensures |Firsts(xs, order)| == |xs| <==> DistinctOrders(xs, order)
  {
    if xs != [] {
      var n := |xs| - 1;
      FirstsSize(xs[..n], order);
      assert DistinctOrders(xs, order) <==>
             DistinctOrders(xs[..n], order) && !exists i :: 0 <= i < n && order(xs[i]) == order(xs[n]);
    }
  }

  lemma {:induction false} NextOfAppend<T>(xs: seq<T>, order: ByOrder<T>, lo: Option<int>, x: T)
    ensures var best := NextOf(xs, order, lo);
            NextOf(xs + [x], order, lo) == if Above(order(x), lo) && (best.None? || order(x) < order(best.value)) then Some(x) else best
  {
    assert (xs + [x])[..|xs|] == xs;
  }

  lemma {:induction false} NextOfFirsts<T>(xs: seq<T>, order: ByOrder<T>, lo: Option<int>)
    ensures NextOf(xs, order, lo) == NextOf(Firsts(xs, order), order, lo)
  {
    if xs != [] {
      var n := |xs| - 1;
      var front := Firsts(xs[..n], order);
      NextOfFirsts(xs[..n], order, lo);
      NextOfAppend(front, order, lo, xs[n]);
      if i :| 0 <= i < n && order(xs[i]) == order(xs[n]) {
        assert front + [] == front;
        if Above(order(xs[n]), lo) {
          NextOfBound(xs[..n], order, lo, i);
        }
      }
    }
  }

  lemma {:induction false} NextOfBound<T>(xs: seq<T>, order: ByOrder<T>, lo: Option<int>, i: nat)
    requires i < |xs| && Above(order(xs[i]), lo)
    ensures NextOf(xs, order, lo).Some? && order(NextOf(xs, order, lo).value) <= order(xs[i])
  {
    NextOfIsLeast(xs, order, lo);
  }

  lemma {:induction false} ChainOfFirsts<T>(xs: seq<T>, order: ByOrder<T>, lo: Option<int>)
    ensures Chain(xs, order, lo) == Chain(Firsts(xs, order), order, lo)
    decreases CountAbove(xs, order, lo)
  {
    NextOfFirsts(xs, order, lo);
    var next := NextOf(xs, order, lo);
    if next.Some? {
      NextShrinks(xs, order, lo);
      ChainOfFirsts(xs, order, Some(order(next.value)));
    }
  }

  function Sort<T>(xs: seq<T>, order: ByOrder<T>): seq<T> {
    if xs == [] then [] else Insert(Sort(xs[..|xs| - 1], order), order, xs[|xs| - 1])
  }

  lemma {:induction false} SortSorts<T>(xs: seq<T>, order: ByOrder<T>)
    ensures SortOf(xs, order, Sort(xs, order))
  {
    if xs != [] {
      var n := |xs| - 1;
      SortSorts(xs[..n], order);
      InsertKeeps(Sort(xs[..n], order), order, xs[n]);
      InsertSorts(Sort(xs[..n], order), order, xs[n]);
      assert xs == xs[..n] + [xs[n]];
    }
  }

  /** Iteration meets exactly the first items, in order. */
  lemma {:induction false} ChainIsSortedFirsts<T>(xs: seq<T>, order: ByOrder<T>)
    ensures SortOf(Firsts(xs, order), order, Chain(xs, order, None))
  {
    var firsts := Firsts(xs, order);
    ChainOfFirsts(xs, order, None);
    FirstsDistinct(xs, order);
    SortSorts(firsts, order);
    ChainIsSortIff(firsts, order, Sort(firsts, order));
  }

  /** Iteration meets as many items as there are only if the orders are distinct. */
  lemma {:induction false} ChainSize<T>(xs: seq<T>, order: ByOrder<T>)
    ensures |Chain(xs, order, None)| <= |xs|
    ensures |Chain(xs, order, None)| == |xs| <==> DistinctOrders(xs, order)
  {
    ChainIsSortedFirsts(xs, order);
    FirstsSize(xs, order);
    assert |multiset(Chain(xs, order, None))| == |multiset(Firsts(xs, order))|;
  }

  /** How many tasks the steps hold together. */
  function Size(steps: seq<WorkflowStep>): nat {
    if steps == [] then 0 else Size(steps[..|steps| - 1]) + |steps[|steps| - 1].tasks|
  }

  lemma {:induction false} SizeOfBag(steps: seq<WorkflowStep>)
    ensures |TaskBag(steps)| == Size(steps)
  {
    if steps != [] {
      SizeOfBag(steps[..|steps| - 1]);
    }
  }

  lemma {:induction false} SizeAppend(steps: seq<WorkflowStep>, s: WorkflowStep)
    ensures Size(steps + [s]) == Size(steps) + |s.tasks|
  {
    assert (steps + [s])[..|steps|] == steps;
  }

  /** A step of an order that an earlier one has holds no tasks. */
  predicate SkippedEmpty(steps: seq<WorkflowStep>) {
    forall i, j :: 0 <= i < j < |steps| && steps[i].order == steps[j].order ==> steps[j].tasks == []
  }

  predicate TasksDistinct(steps: seq<WorkflowStep>) {
    forall i :: 0 <= i < |steps| ==> DistinctOrders(steps[i].tasks, TaskOrder())
  }

  lemma {:induction false} FirstStepsSize(steps: seq<WorkflowStep>)
    ensures Size(Firsts(steps, StepOrder())) <= Size(steps)
    ensures Size(Firsts(steps, StepOrder())) == Size(steps) <==> SkippedEmpty(steps)
  {
    if steps != [] {
      var n := |steps| - 1;
      FirstStepsSize(steps[..n]);
      SizeAppend(Firsts(steps[..n], StepOrder()), steps[n]);
      FirstsGrow(steps);
      LastSkipped(steps);
    }
  }

  /** Some earlier step has the order of the last one. */
  predicate LastIsLater(steps: seq<WorkflowStep>)
    requires steps != []
  {
    exists i :: 0 <= i < |steps| - 1 && steps[i].order == steps[|steps| - 1].order
  }

  lemma {:induction false} FirstsGrow(steps: seq<WorkflowStep>)
    requires steps != []
    ensures var n := |steps| - 1;
            var before := Firsts(steps[..n], StepOrder());
            Firsts(steps, StepOrder()) == if LastIsLater(steps) then before else before + [steps[n]]
  {
    var n := |steps| - 1;
    if LastIsLater(steps) {
      var i :| 0 <= i < n && steps[i].order == steps[n].order;
      assert StepOrder()(steps[i]) == StepOrder()(steps[n]);
    }
  }

  lemma {:induction false} LastSkipped(steps: seq<WorkflowStep>)
    requires steps != []
    ensures var n := |steps| - 1;
            SkippedEmpty(steps) <==> SkippedEmpty(steps[..n]) && (LastIsLater(steps) ==> steps[n].tasks == [])
  {
    var n := |steps| - 1;
    if SkippedEmpty(steps) {
      forall i, j | 0 <= i < j < n && steps[..n][i].order == steps[..n][j].order ensures steps[..n][j].tasks == [] {
        assert steps[i].order == steps[j].order;
      }
    }
  }

  /** All tasks of the steps are visited only if each step's tasks have distinct orders. */
  lemma {:induction false} VisitSize(steps: seq<WorkflowStep>)
    ensures |TasksOf(steps)| <= Size(steps)
    ensures |TasksOf(steps)| == Size(steps) <==> TasksDistinct(steps)
  {
    if steps != [] {
      var n := |steps| - 1;
      VisitSize(steps[..n]);
      ChainSize(steps[n].tasks, TaskOrder());
      assert TasksDistinct(steps) <==> TasksDistinct(steps[..n]) && DistinctOrders(steps[n].tasks, TaskOrder());
    }
  }

  /** If everything is visited, no skipped step has tasks, and no step tasks of equal order. */
  lemma {:induction false} AllVisited(steps: seq<WorkflowStep>)
    requires |TasksOf(Chain(steps, StepOrder(), None))| == Size(steps)
    ensures SkippedEmpty(steps) && TasksDistinct(steps)
  {
    var chain := Chain(steps, StepOrder(), None);
    ChainIsSortedFirsts(steps, StepOrder());
    SameBag(chain, Firsts(steps, StepOrder()));
    SizeOfBag(chain);
    SizeOfBag(Firsts(steps, StepOrder()));
    VisitSize(chain);
    FirstStepsSize(steps);
    forall i | 0 <= i < |steps| ensures DistinctOrders(steps[i].tasks, TaskOrder()) {
      FirstOrLater(steps, StepOrder(), i);
      if steps[i] in Firsts(steps, StepOrder()) {
        MemberOfBoth(chain, Firsts(steps, StepOrder()), steps[i]);
      }
    }
  }

  /** The steps that hold tasks. */
  function Busy(steps: seq<WorkflowStep>): (out: seq<WorkflowStep>)
    ensures forall s :: s in out <==> s in steps && s.tasks != []
  {
    if steps == [] then []
    else
      var n := |steps| - 1;
      assert forall s :: s in steps <==> s in steps[..n] || s == steps[n];
      Busy(steps[..n]) + if steps[n].tasks == [] then [] else [steps[n]]
  }

  lemma {:induction false} BusyLast(steps: seq<WorkflowStep>)
    requires steps != []
    ensures var n := |steps| - 1;
            Busy(steps) == if steps[n].tasks == [] then Busy(steps[..n]) else Busy(steps[..n]) + [steps[n]]
  {
  }

  lemma {:induction false} BusyAppend(steps: seq<WorkflowStep>, s: WorkflowStep)
    ensures Busy(steps + [s]) == if s.tasks == [] then Busy(steps) else Busy(steps) + [s]
  {
    assert (steps + [s])[..|steps|] == steps;
  }

  lemma {:induction false} NoTasksNoChain(s: WorkflowStep)
    ensures s.tasks == [] ==> Chain(s.tasks, TaskOrder(), None) == []
  {
  }

  lemma {:induction false} TasksOfBusy(steps: seq<WorkflowStep>)
    ensures TasksOf(Busy(steps)) == TasksOf(steps)
  {
    if steps != [] {
      var n := |steps| - 1;
      TasksOfBusy(steps[..n]);
      TasksOfAppend(Busy(steps[..n]), steps[n]);
      BusyLast(steps);
      NoTasksNoChain(steps[n]);
    }
  }

  lemma {:induction false} BusyBag(steps: seq<WorkflowStep>, s: WorkflowStep)
    ensures multiset(Busy(steps))[s] == if s.tasks == [] then 0 else multiset(steps)[s]
  {
    if steps != [] {
      var n := |steps| - 1;
      BusyBag(steps[..n], s);
      assert steps == steps[..n] + [steps[n]];
      BusyLast(steps);
    }
  }

  lemma {:induction false} BusySameBag(xs: seq<WorkflowStep>, ys: seq<WorkflowStep>)
    requires multiset(xs) == multiset(ys)
    ensures multiset(Busy(xs)) == multiset(Busy(ys))
  {
    forall s ensures multiset(Busy(xs))[s] == multiset(Busy(ys))[s] {
      BusyBag(xs, s);
      BusyBag(ys, s);
    }
  }

  lemma {:induction false} BusyFirsts(steps: seq<WorkflowStep>)
    requires SkippedEmpty(steps)
    ensures Busy(Firsts(steps, StepOrder())) == Busy(steps)
  {
    if steps != [] {
      var n := |steps| - 1;
      LastSkipped(steps);
      BusyFirsts(steps[..n]);
      FirstsGrow(steps);
      BusyAppend(Firsts(steps[..n], StepOrder()), steps[n]);
      BusyLast(steps);
    }
  }

  lemma {:induction false} BusyDistinct(steps: seq<WorkflowStep>)
    requires SkippedEmpty(steps)
    ensures DistinctOrders(Busy(steps), StepOrder())
  {
    if steps != [] {
      var n := |steps| - 1;
      LastSkipped(steps);
      BusyDistinct(steps[..n]);
      forall s | s in Busy(steps[..n]) && steps[n].tasks != [] ensures s.order != steps[n].order {
        var i :| 0 <= i < n && steps[..n][i] == s;
        assert StepOrder()(steps[i]) == s.order;
      }
    }
  }

  lemma {:induction false} BusySorted(steps: seq<WorkflowStep>)
    requires Sorted(steps, StepOrder())
    ensures Sorted(Busy(steps), StepOrder())
  {
    if steps != [] {
      var n := |steps| - 1;
      BusySorted(steps[..n]);
      forall s | s in Busy(steps[..n]) ensures StepOrder()(s) <= StepOrder()(steps[n]) {
        var i :| 0 <= i < n && steps[..n][i] == s;
        assert steps[i] == s;
      }
    }
  }

  /** Two sorted lists of the same items are equal if the orders are distinct. */
  lemma {:induction false} SortedIsUnique<T>(xs: seq<T>, ys: seq<T>, order: ByOrder<T>)
    requires multiset(xs) == multiset(ys) && Sorted(xs, order) && Sorted(ys, order) && DistinctOrders(xs, order)
    ensures xs == ys
  {
    ChainIsSortIff(xs, order, xs);
    ChainIsSortIff(xs, order, ys);
  }

  /** Sorted in any way, the steps that hold tasks come in the order of the iteration. */
  lemma {:induction false} BusyInOrder(steps: seq<WorkflowStep>, sorted: seq<WorkflowStep>)
    requires SkippedEmpty(steps) && SortOf(steps, StepOrder(), sorted)
    ensures Busy(Chain(steps, StepOrder(), None)) == Busy(sorted)
  {
    var chain, firsts := Chain(steps, StepOrder(), None), Firsts(steps, StepOrder());
    ChainIsSortedFirsts(steps, StepOrder());
    BusySameBag(chain, firsts);
    BusyFirsts(steps);
    BusySameBag(sorted, steps);
    BusyDistinct(steps);
    DistinctIsShared(Busy(chain), StepOrder(), Busy(steps));
    BusySorted(chain);
    BusySorted(sorted);
    SortedIsUnique(Busy(chain), Busy(sorted), StepOrder());
  }

  /**
   The nested searches visit exactly the tasks GetAllTasksByOrder lists, in its order, if and only
   if no step holds two tasks of equal order, and a step of an order that an earlier one has holds
   none at all.
   */
  lemma {:induction false} VisitIsFlatteningIff(steps: seq<WorkflowStep>, tasks: seq<Task>)
    requires ByStepAndTask(steps, tasks)
    ensures TasksOf(Chain(steps, StepOrder(), None)) == tasks <==> TasksDistinct(steps) && SkippedEmpty(steps)
  {
    var sorted: seq<WorkflowStep> :| SortOf(steps, StepOrder(), sorted) && Flattened(sorted, tasks);
    if TasksDistinct(steps) && SkippedEmpty(steps) {
      forall i | 0 <= i < |sorted| ensures DistinctOrders(sorted[i].tasks, TaskOrder()) {
        MemberOfBoth(steps, sorted, sorted[i]);
      }
      FlattenedIsTasksOf(sorted, tasks);
      BusyInOrder(steps, sorted);
      TasksOfBusy(sorted);
      TasksOfBusy(Chain(steps, StepOrder(), None));
    } else if TasksOf(Chain(steps, StepOrder(), None)) == tasks {
      AllTasksKept(steps, tasks);
      SizeOfBag(steps);
      assert |multiset(tasks)| == |tasks|;
      AllVisited(steps);
    }
  }

  /** In particular with distinct orders throughout. */
  lemma {:induction false} VisitIsSortedFlattening(steps: seq<WorkflowStep>, tasks: seq<Task>)
    requires AllDistinct(steps) && ByStepAndTask(steps, tasks)
    ensures TasksOf(Chain(steps, StepOrder(), None)) == tasks
  {
    forall i, j | 0 <= i < j < |steps| ensures steps[i].order != steps[j].order {
      assert StepOrder()(steps[i]) != StepOrder()(steps[j]);
    }
    VisitIsFlatteningIff(steps, tasks);
  }

  /** Of two items of equal order the searches meet the first only. */
  lemma {:induction false} FirstOfTwo<T>(a: T, b: T, order: ByOrder<T>)
    requires order(a) == order(b)
    ensures Chain([a, b], order, None) == [a]
  {
    var xs := [a, b];
    assert xs[..1] == [a] && [a][..0] == [];
    assert Firsts([a], order) == [a];
    assert order(xs[0]) == order(xs[1]);
    assert Firsts(xs, order) == [a];
    ChainIsSortedFirsts(xs, order);
    OnlyOne(Chain(xs, order, None), a);
  }

  /** Two tasks of equal order in one step: the searches visit only the first, sorting lists both. */
  lemma {:induction false} EqualOrdersSkip()
    ensures var xs := [Task("a", 1), Task("b", 1)];
            Chain(xs, TaskOrder(), None) == [Task("a", 1)] && SortOf(xs, TaskOrder(), xs)
  {
    FirstOfTwo(Task("a", 1), Task("b", 1), TaskOrder());
  }

  /** Two steps of equal order: the searches never visit the second, sorting lists the tasks of both. */
  lemma {:induction false} EqualStepOrdersSkip()
    ensures var t, u := Task("t", 1), Task("u", 1);
            var a, b := WorkflowStep("a", 1, [t]), WorkflowStep("b", 1, [u]);
            Chain([a, b], StepOrder(), None) == [a] && ByStepAndTask([a, b], [t, u])
  {
    var t, u := Task("t", 1), Task("u", 1);
    var a, b := WorkflowStep("a", 1, [t]), WorkflowStep("b", 1, [u]);
    FirstOfTwo(a, b, StepOrder());
    ListedInTurn(a, b);
    assert [t] + [u] == [t, u];
  }

  lemma {:induction false} ListedInTurn(a: WorkflowStep, b: WorkflowStep)
    requires a.order <= b.order && |a.tasks| == |b.tasks| == 1
    ensures ByStepAndTask([a, b], a.tasks + b.tasks)
  {
    FlattenedOne(a);
    FlattenedAppend([a], a.tasks, b, b.tasks);
    var sorted := [a] + [b];
    assert sorted == [a, b];
    assert Sorted(sorted, StepOrder());
  }

  lemma {:induction false} FlattenedOne(a: WorkflowStep)
    requires Sorted(a.tasks, TaskOrder())
    ensures Flattened([a], a.tasks)
  {
    FlattenedAppend([], [], a, a.tasks);
    assert [] + [a] == [a] && [] + a.tasks == a.tasks;
  }

  lemma {:induction false} OnlyOne<T>(xs: seq<T>, x: T)
    requires multiset(xs) == multiset([x])
    ensures xs == [x]
  {
    assert |multiset(xs)| == |xs| == 1;
    assert xs[0] in multiset(xs);
  }

  lemma {:induction false} FlattenedAppend(steps: seq<WorkflowStep>, tasks: seq<Task>, s: WorkflowStep, more: seq<Task>)
    requires Flattened(steps, tasks) && SortOf(s.tasks, TaskOrder(), more)
    ensures Flattened(steps + [s], tasks + more)
  {
    assert (steps + [s])[..|steps|] == steps;
    assert (tasks + more)[..|tasks|] == tasks && (tasks + more)[|tasks|..] == more;
  }
}
