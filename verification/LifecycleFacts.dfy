/** What every event, and every run of events, guarantees about cluster and node statuses. */
module LifecycleFacts {
  import opened Wrappers
  import opened Clusters
  import opened Lifecycle

  /** The node object with this key has the status in the list. */
  predicate Is(nodes: seq<Node>, key: nat, status: NodeStatus) {
    exists i :: 0 <= i < |nodes| && nodes[i].key == key && nodes[i].status == status
  }

  predicate Called(log: seq<Call>, kind: CallKind) {
    exists i :: 0 <= i < |log| && log[i].kind == kind
  }

  predicate Succeeded(log: seq<Call>, kind: CallKind) {
    exists i :: 0 <= i < |log| && log[i].kind == kind && log[i].ok
  }

  /** The node was pending while its join, or the installation, was carried out with success. */
  predicate BroughtUp(log: seq<Call>, key: nat) {
    exists i :: 0 <= i < |log| && log[i].ok && log[i].kind in {HANDLE_NODES, INSTALL} && Is(log[i].nodes, key, NODE_PENDING)
  }

  /** Every node running in after was running in before or was brought up. */
  ghost predicate RunningExplained(before: seq<Node>, log: seq<Call>, after: seq<Node>) {
    forall key :: Is(after, key, NODE_RUNNING) ==> Is(before, key, NODE_RUNNING) || BroughtUp(log, key)
  }

  /** No node is running in after that was not running in before. */
  ghost predicate NoNewRunning(before: seq<Node>, after: seq<Node>) {
    forall key :: Is(after, key, NODE_RUNNING) ==> Is(before, key, NODE_RUNNING)
  }

  predicate Settled(nodes: seq<Node>) {
    forall i :: 0 <= i < |nodes| ==> nodes[i].status !in {NODE_FINDING, NODE_CREATING, NODE_PENDING, NODE_DELETING}
  }

  // ---------- how the single steps move nodes ----------

  lemma {:induction false} FromToKeepsRunning(nodes: seq<Node>, from: NodeStatus, to: NodeStatus)
    requires to != NODE_RUNNING
    ensures NoNewRunning(nodes, FromTo(nodes, from, to))
  {
  }

  lemma {:induction false} BareMetalKeepsRunning(nodes: seq<Node>, ips: seq<string>, firstKey: nat, username: string)
    ensures NoNewRunning(nodes, BareMetalNodes(nodes, ips, firstKey, username))
  {
    var added := AddMissing(nodes, ips, |ips|, firstKey, username);
    var out := BareMetalNodes(nodes, ips, firstKey, username);
    AddMissingFacts(nodes, ips, |ips|, firstKey, username);
    SameButRole(added, ips);
    forall key | Is(out, key, NODE_RUNNING) ensures Is(nodes, key, NODE_RUNNING) {
      var i :| 0 <= i < |out| && out[i].key == key && out[i].status == NODE_RUNNING;
      assert added[i].key == key && added[i].status == NODE_RUNNING;
      assert i < |nodes| && nodes[i] == added[..|nodes|][i];
    }
  }

  /** The nodes before the first status change of a path: same cluster list, some nodes added or dropped. */
  lemma {:induction false} ProbeKeepsRunning(s: State, r: Run, env: Environment)
    requires NoNewRunning(s.nodes, r.s.nodes)
    ensures NoNewRunning(s.nodes, Probe(r, env).s.nodes)
  {
  }

  lemma {:induction false} StartKeepsRunning(s: State, env: Environment)
    ensures NoNewRunning(s.nodes, Probe(Basics(s, env), env).s.nodes)
    ensures NoNewRunning(s.nodes, Probe(AddBareMetal(Basics(s, env)), env).s.nodes)
  {
    ProbeKeepsRunning(s, Basics(s, env), env);
    BareMetalKeepsRunning(s.nodes, s.ips, s.nextKey, s.username);
    ProbeKeepsRunning(s, AddBareMetal(Basics(s, env)), env);
  }

  /** Moving pending nodes to running right after a successful call explains every running node. */
  lemma {:induction false} PendingExplained(before: seq<Node>, nodes: seq<Node>, log: seq<Call>, kind: CallKind)
    requires NoNewRunning(before, nodes)
    requires kind in {HANDLE_NODES, INSTALL} && |log| > 0 && log[|log| - 1] == Call(kind, true, nodes)
    ensures RunningExplained(before, log, FromTo(nodes, NODE_PENDING, NODE_RUNNING))
  {
  }

  lemma {:induction false} ExplainedThen(before: seq<Node>, log: seq<Call>, more: seq<Call>, nodes: seq<Node>, after: seq<Node>)
    requires RunningExplained(before, log, nodes) && NoNewRunning(nodes, after)
    ensures RunningExplained(before, log + more, after)
  {
    forall key | Is(after, key, NODE_RUNNING) ensures Is(before, key, NODE_RUNNING) || BroughtUp(log + more, key) {
      if BroughtUp(log, key) {
        var i :| 0 <= i < |log| && log[i].ok && log[i].kind in {HANDLE_NODES, INSTALL} && Is(log[i].nodes, key, NODE_PENDING);
        assert (log + more)[i] == log[i];
      }
    }
  }

  lemma {:induction false} NoNewIsExplained(before: seq<Node>, log: seq<Call>, after: seq<Node>)
    requires NoNewRunning(before, after)
    ensures RunningExplained(before, log, after)
  {
  }

  // ---------- the paths ----------

  lemma {:induction false} StopExplained(s: State, env: Environment)
    ensures RunningExplained(s.nodes, Stop(s, env).log, Stop(s, env).s.nodes)
  {
  }

  lemma {:induction false} ReconcileExplained(s: State, env: Environment)
    ensures RunningExplained(s.nodes, Reconcile(s, env).log, Reconcile(s, env).s.nodes)
  {
    var started := if s.status == RUNNING then s else s.(status := STARTING);
    StartKeepsRunning(started, env);
    var probed := Probe(AddBareMetal(Basics(started, env)), env);
    FromToKeepsRunning(probed.s.nodes, NODE_FINDING, NODE_CREATING);
    var creating := probed.Move(NODE_FINDING, NODE_CREATING).Do(RELOAD, env).Do(MANAGE_NODES, env);
    FromToKeepsRunning(creating.s.nodes, NODE_CREATING, NODE_PENDING);
    var pending := creating.Move(NODE_CREATING, NODE_PENDING);
    assert NoNewRunning(s.nodes, pending.s.nodes);
    var handled := pending.Do(HANDLE_NODES, env);
    if handled.failed {
      NoNewIsExplained(s.nodes, handled.log, handled.s.nodes);
    } else {
      PendingExplained(s.nodes, pending.s.nodes, handled.log, HANDLE_NODES);
      var running := FromTo(pending.s.nodes, NODE_PENDING, NODE_RUNNING);
      FromToKeepsRunning(running, NODE_DELETING, NODE_DELETED);
    }
  }

  lemma {:induction false} NotInstalledExplained(s: State, env: Environment)
    ensures RunningExplained(s.nodes, NotInstalled(s, env).log, NotInstalled(s, env).s.nodes)
  {
    if s.status == STARTING {
      StartKeepsRunning(s, env);
      var probed := Probe(Basics(s, env), env);
      FromToKeepsRunning(probed.s.nodes, NODE_FINDING, NODE_CREATING);
      var creating := probed.Move(NODE_FINDING, NODE_CREATING);
      assert NoNewRunning(s.nodes, creating.s.nodes);
      FromToKeepsRunning(creating.s.nodes, NODE_CREATING, NODE_PENDING);
      var pending := creating.Move(NODE_CREATING, NODE_PENDING);
      assert NoNewRunning(s.nodes, pending.s.nodes);
      var installed := pending.Do(INSTALL, env);
      if !installed.failed {
        PendingExplained(s.nodes, pending.s.nodes, installed.log, INSTALL);
        var running := FromTo(pending.s.nodes, NODE_PENDING, NODE_RUNNING);
        ExplainedThen(s.nodes, installed.log, [Call(RUNTIME_INSTALL, RUNTIME_INSTALL !in env.fails, running)], running, running);
      }
    }
  }

  /** A node runs after an event only if it ran before, or was pending in a join or installation of that event that succeeded. */
  lemma {:induction false} RunningOnlyAfterBringUp(s: State, env: Environment)
    ensures RunningExplained(s.nodes, Handle(s, env).log, Handle(s, env).s.nodes)
  {
    StopExplained(s, env);
    ReconcileExplained(s, env);
    NotInstalledExplained(s, env);
    var r := Path(s, env);
    ExplainedThen(s.nodes, r.log, [Call(SAVE, SAVE !in env.fails, r.s.nodes)], r.s.nodes, r.s.nodes);
  }

  lemma {:induction false} InstallSucceeds(creating: Run, env: Environment)
    requires !creating.failed && !Install(creating, env).failed
    ensures Succeeded(Install(creating, env).log, INSTALL) && Succeeded(Install(creating, env).log, RUNTIME_INSTALL)
  {
    var log, n := Install(creating, env).log, |creating.log|;
    assert log[n].kind == INSTALL && log[n].ok;
    assert log[n + 1].kind == RUNTIME_INSTALL && log[n + 1].ok;
  }

  /** The cluster becomes running only in an event whose installation and runtime installation both succeeded. */
  lemma {:induction false} ClusterRunningOnlyAfterInstall(s: State, env: Environment)
    requires s.status != RUNNING && Handle(s, env).s.status == RUNNING
    ensures Succeeded(Handle(s, env).log, INSTALL) && Succeeded(Handle(s, env).log, RUNTIME_INSTALL)
  {
    var r := Path(s, env);
    StopStatus(s, env);
    ReconcileStatus(s, env);
    NotInstalledStatus(s, env);
    SucceededThen(r.log, [Call(SAVE, SAVE !in env.fails, r.s.nodes)], INSTALL);
    SucceededThen(r.log, [Call(SAVE, SAVE !in env.fails, r.s.nodes)], RUNTIME_INSTALL);
  }

  lemma {:induction false} StopStatus(s: State, env: Environment)
    ensures Stop(s, env).s.status == s.status
  {
  }

  lemma {:induction false} ReconcileStatus(s: State, env: Environment)
    ensures Reconcile(s, env).s.status == if s.status == RUNNING then RUNNING else STARTING
  {
  }

  lemma {:induction false} NotInstalledStatus(s: State, env: Environment)
    requires s.status != RUNNING && NotInstalled(s, env).s.status == RUNNING
    ensures Succeeded(NotInstalled(s, env).log, INSTALL) && Succeeded(NotInstalled(s, env).log, RUNTIME_INSTALL)
  {
    var probed := Probe(Basics(s, env), env);
    assert probed.s.status == s.status;
    var creating := probed.Move(NODE_FINDING, NODE_CREATING);
    if !probed.failed && !env.local && !Install(creating, env).failed {
      InstallSucceeds(creating, env);
    }
  }

  lemma {:induction false} SucceededThen(log: seq<Call>, more: seq<Call>, kind: CallKind)
    requires Succeeded(log, kind)
    ensures Succeeded(log + more, kind)
  {
    var i :| 0 <= i < |log| && log[i].kind == kind && log[i].ok;
    assert (log + more)[i] == log[i];
  }

  // ---------- the calls of an event ----------

  function Kinds(log: seq<Call>): (kinds: seq<CallKind>)
    ensures |kinds| == |log| && forall i :: 0 <= i < |log| ==> kinds[i] == log[i].kind
  {
    seq(|log|, i requires 0 <= i < |log| => log[i].kind)
  }

  /** Some node is left after the look at the nodes. */
  predicate SomeLeft(s: State, env: Environment) {
    exists n :: n in s.nodes && n.key !in env.lost
  }

  function BasicCalls(s: State): seq<CallKind> {
    if LevelChanges(s) then [GET_ZONES, MANAGE_BASIC] else []
  }

  /** The calls of an event if none of them fails, but for the save. */
  function Plan(s: State, env: Environment): seq<CallKind> {
    if s.status == STOPPING then
      [RELOAD, HANDLE_NODES, UNINSTALL, MANAGE_NODES] + (if s.cloud then [DELETE_BASIC] else [])
    else if !env.clusterExists then
      BasicCalls(s) + [SYSTEM_INFO, RELOAD, MANAGE_NODES, HANDLE_NODES]
    else if s.status != STARTING then []
    else
      BasicCalls(s) + [SYSTEM_INFO]
      + if !SomeLeft(s, env) then [] else if env.local then [MANAGE_NODES, WAIT_SLB] else [INSTALL, RUNTIME_INSTALL]
  }

  predicate Fails(plan: seq<CallKind>, fails: set<CallKind>) {
    exists k :: k in plan && k in fails
  }

  /** The calls up to the first that fails, and with it. */
  function UpTo(plan: seq<CallKind>, fails: set<CallKind>): seq<CallKind> {
    if plan == [] then []
    else
      var n := |plan| - 1;
      UpTo(plan[..n], fails) + if Fails(plan[..n], fails) then [] else [plan[n]]
  }

  lemma {:induction false} UpToAppend(plan: seq<CallKind>, k: CallKind, fails: set<CallKind>)
    ensures UpTo(plan + [k], fails) == if Fails(plan, fails) then UpTo(plan, fails) else UpTo(plan, fails) + [k]
    ensures Fails(plan + [k], fails) <==> Fails(plan, fails) || k in fails
  {
    var more := plan + [k];
    assert more[..|plan|] == plan && more[|plan|] == k;
    assert k in more;
  }

  /** What is called is planned, and without a failure all of it is called. */
  lemma {:induction false} UpToIsPart(plan: seq<CallKind>, fails: set<CallKind>)
    ensures forall k :: k in UpTo(plan, fails) ==> k in plan
    ensures !Fails(plan, fails) ==> UpTo(plan, fails) == plan
  {
    if plan != [] {
      var n := |plan| - 1;
      UpToIsPart(plan[..n], fails);
      assert plan == plan[..n] + [plan[n]];
    }
  }

  /** The run has made the planned calls, and after a failed one changed nothing. */
  ghost predicate Follows(r: Run, plan: seq<CallKind>, env: Environment) {
    && Kinds(r.log) == UpTo(plan, env.fails)
    && (r.failed <==> Fails(plan, env.fails))
    && (forall i :: 0 <= i < |r.log| ==> (r.log[i].ok <==> r.log[i].kind !in env.fails))
    && (r.failed ==> r.log != [] && !r.log[|r.log| - 1].ok && r.s.nodes == r.log[|r.log| - 1].nodes)
    && (forall i :: 0 <= i < |r.log| - 1 ==> r.log[i].ok)
    && (!r.failed && r.log != [] ==> r.log[|r.log| - 1].ok)
  }

  lemma {:induction false} DoFollows(r: Run, plan: seq<CallKind>, kind: CallKind, env: Environment)
    requires Follows(r, plan, env)
    ensures Follows(r.Do(kind, env), plan + [kind], env)
  {
    UpToAppend(plan, kind, env.fails);
    if !r.failed {
      var log := r.Do(kind, env).log;
      assert Kinds(log) == Kinds(r.log) + [kind];
    }
  }

  lemma {:induction false} WithFollows(r: Run, plan: seq<CallKind>, nodes: seq<Node>, env: Environment)
    requires Follows(r, plan, env)
    ensures Follows(r.With(nodes), plan, env)
  {
  }

  lemma {:induction false} BasicsFollow(s: State, env: Environment)
    ensures Follows(Basics(s, env), BasicCalls(s), env)
  {
    var r := Run(if LevelChanges(s) then s.(level := LevelFor(TotalSize(s.sizes))) else s, [], false);
    assert Follows(r, [], env);
    if LevelChanges(s) {
      DoFollows(r, [], GET_ZONES, env);
      DoFollows(r.Do(GET_ZONES, env), [] + [GET_ZONES], MANAGE_BASIC, env);
      assert [] + [GET_ZONES] + [MANAGE_BASIC] == BasicCalls(s);
    }
  }

  lemma {:induction false} ProbeFollows(r: Run, plan: seq<CallKind>, env: Environment)
    requires Follows(r, plan, env)
    ensures Follows(Probe(r, env), plan + [SYSTEM_INFO], env)
  {
    DoFollows(r, plan, SYSTEM_INFO, env);
    var p := r.Do(SYSTEM_INFO, env);
    WithFollows(p, plan + [SYSTEM_INFO], Drop(p.s.nodes, env.lost), env);
  }

  lemma {:induction false} PreparedFollows(s: State, env: Environment)
    ensures Follows(Prepared(s, env), BasicCalls(s) + [SYSTEM_INFO], env)
  {
    var started := if s.status == RUNNING then s else s.(status := STARTING);
    BasicsFollow(started, env);
    assert BasicCalls(started) == BasicCalls(s);
    var b := Basics(started, env);
    assert Follows(AddBareMetal(b), BasicCalls(s), env);
    ProbeFollows(AddBareMetal(b), BasicCalls(s), env);
  }

  lemma {:induction false} ManagedFollows(r: Run, plan: seq<CallKind>, env: Environment)
    requires Follows(r, plan, env)
    ensures Follows(Managed(r, env), plan + [RELOAD, MANAGE_NODES, HANDLE_NODES], env)
  {
    WithFollows(r, plan, FromTo(r.s.nodes, NODE_FINDING, NODE_CREATING), env);
    var r0 := r.Move(NODE_FINDING, NODE_CREATING);
    DoTwoFollow(r0, plan, RELOAD, MANAGE_NODES, env);
    HandledFollow(r0.Do(RELOAD, env).Do(MANAGE_NODES, env), plan + [RELOAD, MANAGE_NODES], env);
    assert plan + [RELOAD, MANAGE_NODES] + [HANDLE_NODES] == plan + [RELOAD, MANAGE_NODES, HANDLE_NODES];
  }

  lemma {:induction false} HandledFollow(r: Run, plan: seq<CallKind>, env: Environment)
    requires Follows(r, plan, env)
    ensures Follows(r.Move(NODE_CREATING, NODE_PENDING).Do(HANDLE_NODES, env).Move(NODE_PENDING, NODE_RUNNING).Move(NODE_DELETING, NODE_DELETED),
                    plan + [HANDLE_NODES], env)
  {
    WithFollows(r, plan, FromTo(r.s.nodes, NODE_CREATING, NODE_PENDING), env);
    var r' := r.Move(NODE_CREATING, NODE_PENDING);
    DoFollows(r', plan, HANDLE_NODES, env);
    LastMovesFollow(r'.Do(HANDLE_NODES, env), plan + [HANDLE_NODES], env);
  }

  lemma {:induction false} LastMovesFollow(handled: Run, plan: seq<CallKind>, env: Environment)
    requires Follows(handled, plan, env)
    ensures Follows(handled.Move(NODE_PENDING, NODE_RUNNING).Move(NODE_DELETING, NODE_DELETED), plan, env)
  {
    WithFollows(handled, plan, FromTo(handled.s.nodes, NODE_PENDING, NODE_RUNNING), env);
    var running := handled.Move(NODE_PENDING, NODE_RUNNING);
    WithFollows(running, plan, FromTo(running.s.nodes, NODE_DELETING, NODE_DELETED), env);
  }

  lemma {:induction false} InstallFollows(creating: Run, plan: seq<CallKind>, env: Environment)
    requires Follows(creating, plan, env)
    ensures Follows(Install(creating, env), plan + [INSTALL, RUNTIME_INSTALL], env)
  {
    WithFollows(creating, plan, FromTo(creating.s.nodes, NODE_CREATING, NODE_PENDING), env);
    var pending := creating.Move(NODE_CREATING, NODE_PENDING);
    DoFollows(pending, plan, INSTALL, env);
    var installed := pending.Do(INSTALL, env);
    WithFollows(installed, plan + [INSTALL], FromTo(installed.s.nodes, NODE_PENDING, NODE_RUNNING), env);
    DoFollows(installed.Move(NODE_PENDING, NODE_RUNNING), plan + [INSTALL], RUNTIME_INSTALL, env);
    assert plan + [INSTALL] + [RUNTIME_INSTALL] == plan + [INSTALL, RUNTIME_INSTALL];
  }

  lemma {:induction false} UpToFailed(plan: seq<CallKind>, more: seq<CallKind>, fails: set<CallKind>)
    requires Fails(plan, fails)
    ensures UpTo(plan + more, fails) == UpTo(plan, fails) && Fails(plan + more, fails)
  {
    if more == [] {
      assert plan + more == plan;
    } else {
      var n := |more| - 1;
      UpToFailed(plan, more[..n], fails);
      UpToAppend(plan + more[..n], more[n], fails);
      assert plan + more == plan + more[..n] + [more[n]];
    }
  }

  lemma {:induction false} FailedFollows(r: Run, plan: seq<CallKind>, more: seq<CallKind>, env: Environment)
    requires Follows(r, plan, env) && r.failed
    ensures Follows(r, plan + more, env)
  {
    UpToFailed(plan, more, env.fails);
  }

  lemma {:induction false} DoTwoFollow(r: Run, plan: seq<CallKind>, a: CallKind, b: CallKind, env: Environment)
    requires Follows(r, plan, env)
    ensures Follows(r.Do(a, env).Do(b, env), plan + [a, b], env)
  {
    DoFollows(r, plan, a, env);
    DoFollows(r.Do(a, env), plan + [a], b, env);
    assert plan + [a] + [b] == plan + [a, b];
  }

  /** What follows the look at the nodes if some are left. */
  lemma {:induction false} LeftFollow(probed: Run, plan: seq<CallKind>, env: Environment)
    requires Follows(probed, plan, env)
    ensures var creating := probed.Move(NODE_FINDING, NODE_CREATING);
            && (env.local ==> Follows(creating.Do(MANAGE_NODES, env).Do(WAIT_SLB, env), plan + [MANAGE_NODES, WAIT_SLB], env))
            && (!env.local ==> Follows(Install(creating, env), plan + [INSTALL, RUNTIME_INSTALL], env))
  {
    WithFollows(probed, plan, FromTo(probed.s.nodes, NODE_FINDING, NODE_CREATING), env);
    var creating := probed.Move(NODE_FINDING, NODE_CREATING);
    if env.local {
      DoTwoFollow(creating, plan, MANAGE_NODES, WAIT_SLB, env);
    } else {
      InstallFollows(creating, plan, env);
    }
  }

  lemma {:induction false} NotInstalledFollows(s: State, env: Environment)
    requires s.status == STARTING && env.clusterExists
    ensures Follows(NotInstalled(s, env), Plan(s, env), env)
  {
    BasicsFollow(s, env);
    ProbeFollows(Basics(s, env), BasicCalls(s), env);
    var probed, plan := Probe(Basics(s, env), env), BasicCalls(s) + [SYSTEM_INFO];
    LeftIffSome(s, env);
    if probed.failed {
      var more := if !SomeLeft(s, env) then [] else if env.local then [MANAGE_NODES, WAIT_SLB] else [INSTALL, RUNTIME_INSTALL];
      FailedFollows(probed, plan, more, env);
    } else if probed.s.nodes == [] {
      assert Plan(s, env) == plan;
    } else {
      LeftFollow(probed, plan, env);
    }
  }

  lemma {:induction false} LeftIffSome(s: State, env: Environment)
    ensures !Probe(Basics(s, env), env).failed ==> (Probe(Basics(s, env), env).s.nodes == [] <==> !SomeLeft(s, env))
  {
    var left := Drop(s.nodes, env.lost);
    if left != [] {
      assert left[0] in left;
    }
  }

  lemma {:induction false} StopFollows(s: State, env: Environment)
    requires s.status == STOPPING
    ensures Follows(Stop(s, env), Plan(s, env), env)
  {
    var r0 := Run(s.(nodes := MarkDeleting(s.nodes)), [], false);
    DoTwoFollow(r0, [], RELOAD, HANDLE_NODES, env);
    assert [] + [RELOAD, HANDLE_NODES] == [RELOAD, HANDLE_NODES];
    StopEnds(r0.Do(RELOAD, env).Do(HANDLE_NODES, env), s.cloud, env);
  }

  lemma {:induction false} StopEnds(handled: Run, cloud: bool, env: Environment)
    requires Follows(handled, [RELOAD, HANDLE_NODES], env)
    ensures var r := handled.Do(UNINSTALL, env).Do(MANAGE_NODES, env);
            var r' := if cloud then r.Do(DELETE_BASIC, env) else r;
            Follows(r'.With(AllTo(r'.s.nodes, NODE_DELETED)),
                    [RELOAD, HANDLE_NODES, UNINSTALL, MANAGE_NODES] + (if cloud then [DELETE_BASIC] else []), env)
  {
    DoTwoFollow(handled, [RELOAD, HANDLE_NODES], UNINSTALL, MANAGE_NODES, env);
    var r, plan := handled.Do(UNINSTALL, env).Do(MANAGE_NODES, env), [RELOAD, HANDLE_NODES, UNINSTALL, MANAGE_NODES];
    assert [RELOAD, HANDLE_NODES] + [UNINSTALL, MANAGE_NODES] == plan;
    DeletedFollow(r, plan, cloud, env);
  }

  lemma {:induction false} DeletedFollow(r: Run, plan: seq<CallKind>, cloud: bool, env: Environment)
    requires Follows(r, plan, env)
    ensures var r' := if cloud then r.Do(DELETE_BASIC, env) else r;
            Follows(r'.With(AllTo(r'.s.nodes, NODE_DELETED)), plan + (if cloud then [DELETE_BASIC] else []), env)
  {
    var r', plan' := if cloud then r.Do(DELETE_BASIC, env) else r, plan + (if cloud then [DELETE_BASIC] else []);
    if cloud {
      DoFollows(r, plan, DELETE_BASIC, env);
    } else {
      assert plan' == plan;
    }
    WithFollows(r', plan', AllTo(r'.s.nodes, NODE_DELETED), env);
  }

  lemma {:induction false} ReconcileFollows(s: State, env: Environment)
    ensures Follows(Reconcile(s, env), BasicCalls(s) + [SYSTEM_INFO, RELOAD, MANAGE_NODES, HANDLE_NODES], env)
  {
    PreparedFollows(s, env);
    ManagedPlan(Prepared(s, env), BasicCalls(s), env);
  }

  lemma {:induction false} ManagedPlan(prepared: Run, basics: seq<CallKind>, env: Environment)
    requires Follows(prepared, basics + [SYSTEM_INFO], env)
    ensures Follows(Managed(prepared, env), basics + [SYSTEM_INFO, RELOAD, MANAGE_NODES, HANDLE_NODES], env)
  {
    ManagedFollows(prepared, basics + [SYSTEM_INFO], env);
    assert basics + [SYSTEM_INFO] + [RELOAD, MANAGE_NODES, HANDLE_NODES] == basics + [SYSTEM_INFO, RELOAD, MANAGE_NODES, HANDLE_NODES];
  }

  lemma {:induction false} PathFollows(s: State, env: Environment)
    ensures Follows(Path(s, env), Plan(s, env), env)
  {
    if s.status == STOPPING {
      StopFollows(s, env);
    } else if !env.clusterExists {
      ReconcileFollows(s, env);
    } else if s.status == STARTING {
      NotInstalledFollows(s, env);
    }
  }

  /**
   Whatever fails: the calls are the planned ones up to the first that fails, then one save; the
   event fails exactly if a planned call does, which leaves the cluster in ERROR with its nodes as
   they were at the failed call.
   */
  lemma {:induction false} PlanIsFollowed(s: State, env: Environment)
    ensures var r := Handle(s, env);
            && Kinds(r.log) == UpTo(Plan(s, env), env.fails) + [SAVE]
            && (r.failed <==> Fails(Plan(s, env), env.fails))
            && (forall i :: 0 <= i < |r.log| ==> (r.log[i].ok <==> r.log[i].kind !in env.fails))
            && r.log[|r.log| - 1].nodes == r.s.nodes
            && (r.failed ==> |r.log| > 1 && !r.log[|r.log| - 2].ok && r.s.status == ERROR && r.s.nodes == r.log[|r.log| - 2].nodes)
  {
    PathFollows(s, env);
    SaveFollows(Path(s, env), Plan(s, env), env, Handle(s, env).log);
  }

  lemma {:induction false} SaveFollows(p: Run, plan: seq<CallKind>, env: Environment, log: seq<Call>)
    requires Follows(p, plan, env) && log == p.log + [Call(SAVE, SAVE !in env.fails, p.s.nodes)]
    ensures Kinds(log) == UpTo(plan, env.fails) + [SAVE]
    ensures forall i :: 0 <= i < |log| ==> (log[i].ok <==> log[i].kind !in env.fails)
    ensures p.failed ==> |log| > 1 && !log[|log| - 2].ok && p.s.nodes == log[|log| - 2].nodes
  {
    assert Kinds(log) == Kinds(p.log) + [SAVE];
  }

  /** Exactly one save, after everything else; a failed call before it, and only that, leaves the cluster in ERROR. */
  lemma {:induction false} OneSaveAndErrors(s: State, env: Environment)
    ensures var r := Handle(s, env);
            var last := |r.log| - 1;
            && 0 <= last && r.log[last].kind == SAVE && r.log[last].nodes == r.s.nodes
            && (forall i :: 0 <= i < last ==> r.log[i].kind != SAVE)
            && (r.failed <==> exists i :: 0 <= i < last && !r.log[i].ok)
            && (r.failed ==> r.s.status == ERROR)
  {
    PlanIsFollowed(s, env);
    NoSavePlanned(s, env);
    OnlyPlanned(Handle(s, env).log, Plan(s, env), env);
  }

  lemma {:induction false} OnlyPlanned(log: seq<Call>, plan: seq<CallKind>, env: Environment)
    requires Kinds(log) == UpTo(plan, env.fails) + [SAVE] && SAVE !in plan
    requires forall i :: 0 <= i < |log| ==> (log[i].ok <==> log[i].kind !in env.fails)
    ensures log[|log| - 1].kind == SAVE && forall i :: 0 <= i < |log| - 1 ==> log[i].kind != SAVE && (!log[i].ok ==> Fails(plan, env.fails))
  {
    UpToIsPart(plan, env.fails);
    assert Kinds(log)[|log| - 1] == SAVE;
    forall i | 0 <= i < |log| - 1 ensures log[i].kind != SAVE && (!log[i].ok ==> Fails(plan, env.fails)) {
      assert Kinds(log)[i] == UpTo(plan, env.fails)[i] && UpTo(plan, env.fails)[i] in UpTo(plan, env.fails);
    }
  }

  lemma {:induction false} NoSavePlanned(s: State, env: Environment)
    ensures SAVE !in Plan(s, env)
    ensures s.status != STOPPING ==> UNINSTALL !in Plan(s, env) && DELETE_BASIC !in Plan(s, env)
  {
  }

  // ---------- retries come to rest ----------

  lemma {:induction false} SettledAfterMoves(nodes: seq<Node>)
    ensures var creating := FromTo(nodes, NODE_FINDING, NODE_CREATING);
            var pending := FromTo(creating, NODE_CREATING, NODE_PENDING);
            var running := FromTo(pending, NODE_PENDING, NODE_RUNNING);
            Settled(FromTo(running, NODE_DELETING, NODE_DELETED))
  {
  }

  /** From any state, an event without failures settles every node, and a stop deletes every node. */
  lemma {:induction false} RetrySettles(s: State, env: Environment)
    requires env.fails == {}
    ensures !Handle(s, env).failed
    ensures s.status != STOPPING && !env.clusterExists ==> Settled(Handle(s, env).s.nodes)
    ensures s.status == STOPPING ==>
              forall i :: 0 <= i < |Handle(s, env).s.nodes| ==> Handle(s, env).s.nodes[i].status == NODE_DELETED
  {
    var started := if s.status == RUNNING then s else s.(status := STARTING);
    SettledAfterMoves(Probe(AddBareMetal(Basics(started, env)), env).s.nodes);
  }

  /** While Kubernetes answers, only a STARTING or STOPPING cluster is worked on: after an error, an event merely saves. */
  lemma {:induction false} ErrorSticksWhileClusterExists(s: State, env: Environment)
    requires env.clusterExists
    ensures Handle(s, env).s == s && |Handle(s, env).log| == 1 <==> s.status !in {STARTING, STOPPING}
  {
    if s.status == STARTING {
      BasicsGrow(s, env);
    }
  }

  lemma {:induction false} BasicsGrow(s: State, env: Environment)
    ensures Basics(s, env).failed ==> |Basics(s, env).log| > 0
    ensures |NotInstalled(s, env).log| > 0 || s.status != STARTING
  {
  }

  lemma {:induction false} CalledIsKind(log: seq<Call>, kind: CallKind)
    ensures Called(log, kind) <==> kind in Kinds(log)
  {
    if kind in Kinds(log) {
      var i :| 0 <= i < |log| && Kinds(log)[i] == kind;
    }
  }

  /** The basic resources are managed, and then before the nodes, exactly when the level is defined and new. */
  lemma {:induction false} BasicsManagedIffLevelChanges(s: State, env: Environment)
    requires env.fails == {} && s.status != STOPPING && !env.clusterExists && s.cloud
    ensures MANAGE_NODES in Kinds(Handle(s, env).log)
    ensures MANAGE_BASIC in Kinds(Handle(s, env).log)
            <==> var total := TotalSize(s.sizes);
                 !(100 <= total < 200) && LevelFor(total) != s.level
  {
    PlanIsFollowed(s, env);
    UpToIsPart(Plan(s, env), env.fails);
    var tail := [SYSTEM_INFO, RELOAD, MANAGE_NODES, HANDLE_NODES];
    assert tail[2] == MANAGE_NODES && MANAGE_NODES in tail && MANAGE_BASIC !in tail;
    assert LevelChanges(s) ==> BasicCalls(s)[1] == MANAGE_BASIC;
    assert LevelChanges(s) <==> (var total := TotalSize(s.sizes); !(100 <= total < 200) && LevelFor(total) != s.level);
  }

  // ---------- the level is set before the zones are asked for ----------

  /** The event works on the cluster, other than to stop it. */
  predicate WorksOn(s: State, env: Environment) {
    s.status != STOPPING && (env.clusterExists ==> s.status == STARTING)
  }

  /** Only the cloud, the sizes and the level decide whether the level changes. */
  predicate SameLevelling(s: State, s': State) {
    s'.cloud == s.cloud && s'.sizes == s.sizes && s'.level == s.level
  }

  lemma {:induction false} BasicsSetLevel(s: State, env: Environment)
    ensures !LevelChanges(Basics(s, env).s) && Basics(s, env).s.status == s.status
  {
  }

  lemma {:induction false} ReconcileSetsLevel(s: State, env: Environment)
    ensures !LevelChanges(Reconcile(s, env).s)
  {
    var started := if s.status == RUNNING then s else s.(status := STARTING);
    BasicsSetLevel(started, env);
    assert SameLevelling(Basics(started, env).s, Prepared(s, env).s);
    ManagedKeepsLevel(Prepared(s, env), env);
  }

  lemma {:induction false} ManagedKeepsLevel(probed: Run, env: Environment)
    ensures SameLevelling(probed.s, Managed(probed, env).s)
  {
  }

  lemma {:induction false} NotInstalledSetsLevel(s: State, env: Environment)
    ensures s.status == STARTING ==> !LevelChanges(NotInstalled(s, env).s)
    ensures s.status != STARTING ==> NotInstalled(s, env).s == s
    ensures s.status != STOPPING ==> NotInstalled(s, env).s.status != STOPPING
  {
    BasicsSetLevel(s, env);
    var probed := Probe(Basics(s, env), env);
    assert SameLevelling(Basics(s, env).s, probed.s) && probed.s.status == s.status;
    InstallKeepsLevel(probed.Move(NODE_FINDING, NODE_CREATING), env);
  }

  lemma {:induction false} InstallKeepsLevel(creating: Run, env: Environment)
    ensures SameLevelling(creating.s, Install(creating, env).s)
    ensures Install(creating, env).s.status in {creating.s.status, RUNNING}
  {
  }

  /** An event that works on the cluster leaves no change of level open, and no event opens one. */
  lemma {:induction false} EventSetsLevel(s: State, env: Environment)
    requires s.status != STOPPING
    ensures WorksOn(s, env) || !LevelChanges(s) ==> !LevelChanges(Handle(s, env).s)
    ensures Handle(s, env).s.status != STOPPING
  {
    ReconcileSetsLevel(s, env);
    ReconcileStatus(s, env);
    NotInstalledSetsLevel(s, env);
    var r := Path(s, env);
    assert SameLevelling(r.s, Handle(s, env).s);
  }

  /** When an event manages the basic resources, and when with success, whatever else fails. */
  lemma {:induction false} BasicsCalledIff(s: State, env: Environment)
    ensures Called(Handle(s, env).log, MANAGE_BASIC) <==> WorksOn(s, env) && LevelChanges(s) && GET_ZONES !in env.fails
    ensures Succeeded(Handle(s, env).log, MANAGE_BASIC)
            <==> WorksOn(s, env) && LevelChanges(s) && GET_ZONES !in env.fails && MANAGE_BASIC !in env.fails
  {
    PlanIsFollowed(s, env);
    var log, plan := Handle(s, env).log, Plan(s, env);
    CalledIsKind(log, MANAGE_BASIC);
    BasicsComeFirst(s, env);
    if MANAGE_BASIC in Kinds(log) {
      var i :| 0 <= i < |log| && Kinds(log)[i] == MANAGE_BASIC;
      assert log[i].kind == MANAGE_BASIC;
    }
  }

  /** Of the planned calls, that for basic resources is made exactly if the one before it does not fail. */
  lemma {:induction false} BasicsComeFirst(s: State, env: Environment)
    ensures MANAGE_BASIC in UpTo(Plan(s, env), env.fails) <==> WorksOn(s, env) && LevelChanges(s) && GET_ZONES !in env.fails
  {
    UpToIsPart(Plan(s, env), env.fails);
    if WorksOn(s, env) && LevelChanges(s) {
      BasicsPlanned(s, env);
      SecondCall(Plan(s, env), env.fails);
    } else {
      NoBasicsPlanned(s, env);
    }
  }

  lemma {:induction false} BasicsPlanned(s: State, env: Environment)
    requires WorksOn(s, env) && LevelChanges(s)
    ensures var plan := Plan(s, env);
            |plan| >= 2 && plan[..2] == [GET_ZONES, MANAGE_BASIC] && MANAGE_BASIC !in plan[2..]
  {
    assert Plan(s, env)[..2] == BasicCalls(s);
  }

  lemma {:induction false} NoBasicsPlanned(s: State, env: Environment)
    requires !(WorksOn(s, env) && LevelChanges(s))
    ensures MANAGE_BASIC !in Plan(s, env)
  {
  }

  lemma {:induction false} SecondCall(plan: seq<CallKind>, fails: set<CallKind>)
    requires |plan| >= 2 && plan[..2] == [GET_ZONES, MANAGE_BASIC] && MANAGE_BASIC !in plan[2..]
    ensures MANAGE_BASIC in UpTo(plan, fails) <==> GET_ZONES !in fails
  {
    assert plan[..2] == [GET_ZONES] + [MANAGE_BASIC] && [] + [GET_ZONES] == [GET_ZONES];
    UpToAppend([GET_ZONES], MANAGE_BASIC, fails);
    UpToAppend([], GET_ZONES, fails);
    UpToTail(plan, 2, fails);
  }

  /** What is called is called of the front, or of the rest if the front does not fail. */
  lemma {:induction false} UpToTail(plan: seq<CallKind>, n: nat, fails: set<CallKind>)
    requires n <= |plan|
    ensures forall k :: k in UpTo(plan[..n], fails) ==> k in UpTo(plan, fails)
    ensures forall k :: k in UpTo(plan, fails) ==> k in UpTo(plan[..n], fails) || k in plan[n..]
    decreases |plan|
  {
    if n == |plan| {
      assert plan[..n] == plan;
    } else {
      var m := |plan| - 1;
      UpToTail(plan[..m], n, fails);
      assert plan[..m][..n] == plan[..n] && plan[n..] == plan[..m][n..] + [plan[m]];
    }
  }

  // ---------- runs ----------

  /**
   A step of a run: an event; a user command, which starts no node and no cluster by itself; or
   the return to a state stored earlier, from which the next event starts if later saves were lost.
   */
  datatype Step = Event(env: Environment) | Command | Restore(at: nat)

  ghost predicate Next(states: seq<State>, i: nat, step: Step)
    requires i + 1 < |states|
  {
    match step
    case Event(env) => states[i + 1] == Handle(states[i], env).s
    case Command => NoNewRunning(states[i].nodes, states[i + 1].nodes) && (states[i + 1].status == RUNNING ==> states[i].status == RUNNING)
    case Restore(at) => at <= i && states[i + 1] == states[at]
  }

  ghost predicate IsRun(states: seq<State>, steps: seq<Step>) {
    && |states| == |steps| + 1
    && (forall i :: 0 <= i < |steps| ==> Next(states, i, steps[i]))
    && states[0].nodes == [] && states[0].status != RUNNING
  }

  /** Step i is an event that brought the node up. */
  ghost predicate NodeEventAt(states: seq<State>, steps: seq<Step>, i: nat, key: nat)
    requires |states| == |steps| + 1
  {
    i < |steps| && steps[i].Event? && BroughtUp(Handle(states[i], steps[i].env).log, key)
  }

  ghost predicate InstallEventAt(states: seq<State>, steps: seq<Step>, i: nat)
    requires |states| == |steps| + 1
  {
    && i < |steps| && steps[i].Event?
    && Succeeded(Handle(states[i], steps[i].env).log, INSTALL)
    && Succeeded(Handle(states[i], steps[i].env).log, RUNTIME_INSTALL)
  }

  /** At every point of a run, a running node was brought up by an earlier event. */
  lemma {:induction false} NodeIsExplained(states: seq<State>, steps: seq<Step>, m: nat, key: nat) returns (i: nat)
    requires IsRun(states, steps) && m <= |steps| && Is(states[m].nodes, key, NODE_RUNNING)
    ensures i < m && NodeEventAt(states, steps, i, key)
    decreases m
  {
    var n := m - 1;
    assert Next(states, n, steps[n]);
    if steps[n].Restore? {
      i := NodeIsExplained(states, steps, steps[n].at, key);
    } else {
      if steps[n].Event? {
        RunningOnlyAfterBringUp(states[n], steps[n].env);
      }
      if Is(states[n].nodes, key, NODE_RUNNING) {
        i := NodeIsExplained(states, steps, n, key);
      } else {
        i := n;
      }
    }
  }

  lemma {:induction false} ClusterIsExplained(states: seq<State>, steps: seq<Step>, m: nat) returns (i: nat)
    requires IsRun(states, steps) && m <= |steps| && states[m].status == RUNNING
    ensures i < m && InstallEventAt(states, steps, i)
    decreases m
  {
    var n := m - 1;
    assert Next(states, n, steps[n]);
    if steps[n].Restore? {
      i := ClusterIsExplained(states, steps, steps[n].at);
    } else if states[n].status == RUNNING {
      i := ClusterIsExplained(states, steps, n);
    } else {
      ClusterRunningOnlyAfterInstall(states[n], steps[n].env);
      i := n;
    }
  }

  /** At every point of every run, a running node was brought up by an earlier event, and a running cluster was installed by one. */
  lemma {:induction false} RunIsExplained(states: seq<State>, steps: seq<Step>, m: nat)
    requires IsRun(states, steps) && m <= |steps|
    ensures forall key :: Is(states[m].nodes, key, NODE_RUNNING) ==> exists i: nat :: i < m && NodeEventAt(states, steps, i, key)
    ensures states[m].status == RUNNING ==> exists i: nat :: i < m && InstallEventAt(states, steps, i)
  {
    forall key | Is(states[m].nodes, key, NODE_RUNNING) ensures exists i: nat :: i < m && NodeEventAt(states, steps, i, key) {
      var i := NodeIsExplained(states, steps, m, key);
    }
    if states[m].status == RUNNING {
      var i := ClusterIsExplained(states, steps, m);
    }
  }

  /** The state after one event for each of the environments. */
  function After(s: State, envs: seq<Environment>): State {
    if envs == [] then s else Handle(After(s, envs[..|envs| - 1]), envs[|envs| - 1]).s
  }

  /** While Kubernetes answers, a cluster in ERROR, or anything else but starting or stopping, stays as it is through all events. */
  lemma {:induction false} ErrorStaysForever(s: State, envs: seq<Environment>)
    requires s.status !in {STARTING, STOPPING} && (forall i :: 0 <= i < |envs| ==> envs[i].clusterExists)
    ensures After(s, envs) == s
  {
    if envs != [] {
      var n := |envs| - 1;
      ErrorStaysForever(s, envs[..n]);
      ErrorSticksWhileClusterExists(s, envs[n]);
    }
  }

  lemma {:induction false} NotStopping(s: State, envs: seq<Environment>)
    requires s.status != STOPPING
    ensures After(s, envs).status != STOPPING
  {
    if envs != [] {
      var n := |envs| - 1;
      NotStopping(s, envs[..n]);
      EventSetsLevel(After(s, envs[..n]), envs[n]);
    }
  }

  lemma {:induction false} NoStopCalls(s: State, env: Environment)
    requires s.status != STOPPING
    ensures !Called(Handle(s, env).log, UNINSTALL) && !Called(Handle(s, env).log, DELETE_BASIC)
  {
    PlanIsFollowed(s, env);
    NoSavePlanned(s, env);
    UpToIsPart(Plan(s, env), env.fails);
    CalledIsKind(Handle(s, env).log, UNINSTALL);
    CalledIsKind(Handle(s, env).log, DELETE_BASIC);
  }

  lemma {:induction false} FailedStopEnds(s: State, env: Environment)
    requires s.status == STOPPING && Handle(s, env).failed
    ensures Handle(s, env).s.status == ERROR
  {
  }

  lemma {:induction false} ErrorStarts(s: State, env: Environment)
    requires s.status == ERROR && env.fails == {} && !env.clusterExists
    ensures Handle(s, env).s.status == STARTING
  {
    RetrySettles(s, env);
    ReconcileStatus(s, env);
  }

  /**
   A stop is tried once: when an event of a stopping cluster fails, no later event uninstalls
   or deletes the basic resources. Instead the next failure-free one starts the cluster again.
   */
  lemma {:induction false} StopIsTriedOnce(s: State, first: Environment, more: seq<Environment>, env: Environment)
    requires s.status == STOPPING && Handle(s, first).failed
    ensures var later := After(Handle(s, first).s, more);
            !Called(Handle(later, env).log, UNINSTALL) && !Called(Handle(later, env).log, DELETE_BASIC)
    ensures env.fails == {} && !env.clusterExists ==> Handle(Handle(s, first).s, env).s.status == STARTING
  {
    FailedStopEnds(s, first);
    var failed := Handle(s, first).s;
    NotStopping(failed, more);
    NoStopCalls(After(failed, more), env);
    if env.fails == {} && !env.clusterExists {
      ErrorStarts(failed, env);
    }
  }

  lemma {:induction false} LevelStaysSet(s: State, envs: seq<Environment>)
    requires envs != [] && WorksOn(s, envs[0])
    ensures !LevelChanges(After(s, envs)) && After(s, envs).status != STOPPING
  {
    var n := |envs| - 1;
    if n > 0 {
      LevelStaysSet(s, envs[..n]);
    }
    EventSetsLevel(After(s, envs[..n]), envs[n]);
  }

  /**
   The level is set before the zones are asked for, so the basic resources get one attempt: after
   an event that works on the cluster no later one manages them, however the attempt ended, as
   long as the cluster is not changed otherwise. The later events can still settle the nodes.
   */
  lemma {:induction false} BasicsAreTriedOnce(s: State, envs: seq<Environment>, env: Environment)
    requires envs != [] && WorksOn(s, envs[0])
    ensures Succeeded(Handle(s, envs[0]).log, MANAGE_BASIC)
            <==> LevelChanges(s) && GET_ZONES !in envs[0].fails && MANAGE_BASIC !in envs[0].fails
    ensures !Called(Handle(After(s, envs), env).log, MANAGE_BASIC)
    ensures env.fails == {} && !env.clusterExists ==>
              !Handle(After(s, envs), env).failed && Settled(Handle(After(s, envs), env).s.nodes)
  {
    LevelStaysSet(s, envs);
    BasicsCalledIff(s, envs[0]);
    BasicsCalledIff(After(s, envs), env);
    if env.fails == {} {
      RetrySettles(After(s, envs), env);
    }
  }

  lemma {:induction false} LevelStaysQuiet(s: State, envs: seq<Environment>)
    requires !LevelChanges(s)
    ensures !LevelChanges(After(s, envs))
  {
    if envs != [] {
      var n := |envs| - 1;
      LevelStaysQuiet(s, envs[..n]);
      EventKeepsQuiet(After(s, envs[..n]), envs[n]);
    }
  }

  lemma {:induction false} EventKeepsQuiet(s: State, env: Environment)
    requires !LevelChanges(s)
    ensures !LevelChanges(Handle(s, env).s)
  {
    if s.status == STOPPING {
      assert SameLevelling(s, Stop(s, env).s);
    } else {
      EventSetsLevel(s, env);
    }
  }

  lemma {:induction false} FailedReload(s: State, env: Environment)
    requires s.status == STOPPING && RELOAD in env.fails
    ensures Handle(s, env).s.status == ERROR && SameLevelling(s, Handle(s, env).s)
  {
  }

  /** Whatever events come and whatever fails in them, none manages the basic resources. */
  ghost predicate NeverManaged(s: State) {
    forall envs, env :: !Called(Handle(After(s, envs), env).log, MANAGE_BASIC)
  }

  lemma {:induction false} ManagedAfter(s: State, envs: seq<Environment>, env: Environment)
    requires LevelChanges(After(s, envs)) && WorksOn(After(s, envs), env) && env.fails == {}
    ensures !NeverManaged(s)
  {
    BasicsCalledIff(After(s, envs), env);
  }

  lemma {:induction false} AfterOne(s: State, env: Environment)
    ensures After(s, [env]) == Handle(s, env).s
  {
    var envs := [env];
    assert envs[..0] == [] && After(s, []) == s;
  }

  /** As long as the level is to change, some events lead to the basic resources, from a failed stop too. */
  lemma {:induction false} BasicsReachable(s: State)
    requires LevelChanges(s)
    ensures !NeverManaged(s)
  {
    var quiet := Environment(false, {}, false, {});
    if s.status == STOPPING {
      var fail := Environment(false, {RELOAD}, false, {});
      FailedReload(s, fail);
      AfterOne(s, fail);
      ManagedAfter(s, [fail], quiet);
    } else {
      ManagedAfter(s, [], quiet);
    }
  }

  /** No sequence of events ever manages the basic resources if and only if the level is the one for the sizes, or no cloud or level is there. */
  lemma {:induction false} BasicsNeverIff(s: State)
    ensures NeverManaged(s) <==> !LevelChanges(s)
  {
    if LevelChanges(s) {
      BasicsReachable(s);
    } else {
      QuietIsNever(s);
    }
  }

  lemma {:induction false} QuietIsNever(s: State)
    requires !LevelChanges(s)
    ensures NeverManaged(s)
  {
    forall envs, env ensures !Called(Handle(After(s, envs), env).log, MANAGE_BASIC) {
      LevelStaysQuiet(s, envs);
      BasicsCalledIff(After(s, envs), env);
    }
  }

  /** So a cloud cluster saved with level BASIC and started with its one group of three never gets them. */
  lemma {:induction false} StartedWithoutBasics(s: State)
    requires s.level == BASIC && s.sizes == [3]
    ensures NeverManaged(s)
  {
    assert [3][..0] == [];
    assert !LevelChanges(s);
    BasicsNeverIff(s);
  }

  // ---------- what becomes of the nodes ----------

  /** What a failure-free event makes of a node's status, by the path it takes. */
  function Joined(status: NodeStatus): NodeStatus {
    match status
    case NODE_FINDING | NODE_CREATING | NODE_PENDING => NODE_RUNNING
    case NODE_DELETING => NODE_DELETED
    case _ => status
  }

  function Installed(status: NodeStatus): NodeStatus {
    match status
    case NODE_FINDING | NODE_CREATING | NODE_PENDING => NODE_RUNNING
    case _ => status
  }

  /** kept are the nodes of the list that the look at the nodes leaves, each as often as before. */
  ghost predicate Kept(nodes: seq<Node>, lost: set<nat>, kept: seq<Node>) {
    forall n :: multiset(kept)[n] == if n.key in lost then 0 else multiset(nodes)[n]
  }

  lemma {:induction false} DropKeeps(nodes: seq<Node>, lost: set<nat>)
    ensures Kept(nodes, lost, Drop(nodes, lost))
    ensures lost == {} ==> Drop(nodes, lost) == nodes
  {
    if nodes != [] {
      var head, rest := nodes[0], nodes[1..];
      DropKeeps(rest, lost);
      assert nodes == [head] + rest;
      var kept := Drop(rest, lost);
      assert Drop(nodes, lost) == if head.key in lost then kept else [head] + kept;
      forall n ensures multiset(Drop(nodes, lost))[n] == if n.key in lost then 0 else multiset(nodes)[n] {
        assert multiset(kept)[n] == if n.key in lost then 0 else multiset(rest)[n];
      }
    }
  }

  lemma {:induction false} MovesJoin(kept: seq<Node>)
    ensures var creating := FromTo(kept, NODE_FINDING, NODE_CREATING);
            var pending := FromTo(creating, NODE_CREATING, NODE_PENDING);
            var running := FromTo(pending, NODE_PENDING, NODE_RUNNING);
            var out := FromTo(running, NODE_DELETING, NODE_DELETED);
            && |out| == |running| == |kept|
            && (forall i :: 0 <= i < |kept| ==> out[i] == kept[i].(status := Joined(kept[i].status)))
            && (forall i :: 0 <= i < |kept| ==> running[i] == kept[i].(status := Installed(kept[i].status)))
  {
  }

  /** The nodes the looks goes over: on bare metal those of the address range are added first. */
  function Listed(s: State): seq<Node> {
    if s.cloud then s.nodes else BareMetalNodes(s.nodes, s.ips, s.nextKey, s.username)
  }

  /**
   A failure-free event of a cluster that does not answer yet: of the nodes that are left, those
   to be found, created or joined run, those to be deleted are deleted, all others are as before.
   */
  lemma {:induction false} EventJoins(s: State, env: Environment) returns (kept: seq<Node>)
    requires env.fails == {} && s.status != STOPPING && !env.clusterExists
    ensures Kept(Listed(s), env.lost, kept) && (env.lost == {} ==> kept == Listed(s))
    ensures var r := Handle(s, env);
            && !r.failed && r.s.status == (if s.status == RUNNING then RUNNING else STARTING)
            && |r.s.nodes| == |kept|
            && forall i :: 0 <= i < |kept| ==> r.s.nodes[i] == kept[i].(status := Joined(kept[i].status))
  {
    kept := Prepared(s, env).s.nodes;
    PreparedNodes(s, env);
    MovesJoin(kept);
    RetrySettles(s, env);
    ReconcileStatus(s, env);
    ManagedNodes(Prepared(s, env), env);
  }

  lemma {:induction false} PreparedNodes(s: State, env: Environment)
    requires env.fails == {}
    ensures !Prepared(s, env).failed && Prepared(s, env).s.nodes == Drop(Listed(s), env.lost)
    ensures Kept(Listed(s), env.lost, Drop(Listed(s), env.lost))
    ensures env.lost == {} ==> Drop(Listed(s), env.lost) == Listed(s)
  {
    DropKeeps(Listed(s), env.lost);
  }

  lemma {:induction false} ManagedNodes(probed: Run, env: Environment)
    requires env.fails == {} && !probed.failed
    ensures var pending := FromTo(FromTo(probed.s.nodes, NODE_FINDING, NODE_CREATING), NODE_CREATING, NODE_PENDING);
            Managed(probed, env).s.nodes == FromTo(FromTo(pending, NODE_PENDING, NODE_RUNNING), NODE_DELETING, NODE_DELETED)
  {
  }

  /**
   A failure-free event of a starting cluster that answers, not in the local environment and with
   nodes left: both installations are made, the cluster runs, and so do the nodes to be found,
   created or joined; others, also those to be deleted, are as before.
   */
  lemma {:induction false} EventInstalls(s: State, env: Environment) returns (kept: seq<Node>)
    requires env.fails == {} && s.status == STARTING && env.clusterExists && !env.local && SomeLeft(s, env)
    ensures Kept(s.nodes, env.lost, kept) && (env.lost == {} ==> kept == s.nodes)
    ensures var r := Handle(s, env);
            && !r.failed && r.s.status == RUNNING
            && Kinds(r.log) == BasicCalls(s) + [SYSTEM_INFO, INSTALL, RUNTIME_INSTALL, SAVE]
            && |r.s.nodes| == |kept|
            && forall i :: 0 <= i < |kept| ==> r.s.nodes[i] == kept[i].(status := Installed(kept[i].status))
  {
    kept := Drop(s.nodes, env.lost);
    DropKeeps(s.nodes, env.lost);
    MovesJoin(kept);
    InstalledRun(s, env);
    AllPlanned(s, env);
    InstallPlan(s, env);
  }

  lemma {:induction false} InstallPlan(s: State, env: Environment)
    requires s.status == STARTING && env.clusterExists && !env.local && SomeLeft(s, env)
    ensures Plan(s, env) + [SAVE] == BasicCalls(s) + [SYSTEM_INFO, INSTALL, RUNTIME_INSTALL, SAVE]
  {
    Joins(BasicCalls(s), SYSTEM_INFO, [INSTALL, RUNTIME_INSTALL], SAVE);
  }

  lemma {:induction false} Joins<T>(a: seq<T>, b: T, c: seq<T>, d: T)
    ensures a + [b] + c + [d] == a + ([b] + c + [d])
  {
  }

  lemma {:induction false} AllPlanned(s: State, env: Environment)
    requires env.fails == {}
    ensures !Handle(s, env).failed && Kinds(Handle(s, env).log) == Plan(s, env) + [SAVE]
  {
    PlanIsFollowed(s, env);
    UpToIsPart(Plan(s, env), env.fails);
  }

  lemma {:induction false} InstalledRun(s: State, env: Environment)
    requires env.fails == {} && s.status == STARTING && env.clusterExists && !env.local && SomeLeft(s, env)
    ensures var creating := FromTo(Drop(s.nodes, env.lost), NODE_FINDING, NODE_CREATING);
            && !Handle(s, env).failed && Handle(s, env).s.status == RUNNING
            && Handle(s, env).s.nodes == FromTo(FromTo(creating, NODE_CREATING, NODE_PENDING), NODE_PENDING, NODE_RUNNING)
  {
    LeftIffSome(s, env);
    ProbedNodes(s, env);
    InstallNodes(Probe(Basics(s, env), env).Move(NODE_FINDING, NODE_CREATING), env);
  }

  lemma {:induction false} ProbedNodes(s: State, env: Environment)
    requires env.fails == {}
    ensures !Probe(Basics(s, env), env).failed && Probe(Basics(s, env), env).s.nodes == Drop(s.nodes, env.lost)
  {
  }

  lemma {:induction false} InstallNodes(creating: Run, env: Environment)
    requires env.fails == {} && !creating.failed
    ensures var r := Install(creating, env);
            && !r.failed && r.s.status == RUNNING
            && r.s.nodes == FromTo(FromTo(creating.s.nodes, NODE_CREATING, NODE_PENDING), NODE_PENDING, NODE_RUNNING)
  {
  }

  /** A failure-free stop makes these calls, all with the nodes that were not gone marked, and ends with every node deleted. */
  lemma {:induction false} EventStops(s: State, env: Environment)
    requires env.fails == {} && s.status == STOPPING
    ensures var r := Handle(s, env);
            && !r.failed
            && Kinds(r.log) == [RELOAD, HANDLE_NODES, UNINSTALL, MANAGE_NODES] + (if s.cloud then [DELETE_BASIC] else []) + [SAVE]
            && (forall c :: 0 <= c < |r.log| - 1 ==> Marked(s.nodes, r.log[c].nodes))
            && |r.s.nodes| == |s.nodes|
            && forall i :: 0 <= i < |s.nodes| ==> r.s.nodes[i] == s.nodes[i].(status := NODE_DELETED)
  {
    AllPlanned(s, env);
    StopNodes(s, env);
  }

  /** The nodes with every one marked for deletion that is neither unspecified nor deleted. */
  predicate Marked(was: seq<Node>, now: seq<Node>) {
    && |now| == |was|
    && forall i :: 0 <= i < |was| ==>
                     now[i] == if was[i].status in {NODE_UNSPECIFIED, NODE_DELETED} then was[i] else was[i].(status := NODE_DELETING)
  }

  lemma {:induction false} StopNodes(s: State, env: Environment)
    requires env.fails == {}
    ensures forall c :: 0 <= c < |Stop(s, env).log| ==> Marked(s.nodes, Stop(s, env).log[c].nodes)
    ensures Stop(s, env).s.nodes == AllTo(MarkDeleting(s.nodes), NODE_DELETED)
  {
  }

  /**
   What the calls get to see, also in an event that fails later: machines are managed when no node
   is to be found any more, and nodes are joined, or the cluster installed, when none is to be
   created any more either.
   */
  lemma {:induction false} CallsSeeTheirNodes(s: State, env: Environment, i: nat)
    requires s.status != STOPPING && i < |Handle(s, env).log|
    ensures Handle(s, env).log[i].kind == MANAGE_NODES ==> Without(Handle(s, env).log[i].nodes, {NODE_FINDING})
    ensures Handle(s, env).log[i].kind in {HANDLE_NODES, INSTALL} ==> Without(Handle(s, env).log[i].nodes, {NODE_FINDING, NODE_CREATING})
  {
    if env.clusterExists {
      NotInstalledSees(s, env);
    } else {
      ReconcileSees(s, env);
    }
  }

  predicate Without(nodes: seq<Node>, statuses: set<NodeStatus>) {
    forall i :: 0 <= i < |nodes| ==> nodes[i].status !in statuses
  }

  predicate Sees(log: seq<Call>) {
    forall i :: 0 <= i < |log| ==>
                  && (log[i].kind == MANAGE_NODES ==> Without(log[i].nodes, {NODE_FINDING}))
                  && (log[i].kind in {HANDLE_NODES, INSTALL} ==> Without(log[i].nodes, {NODE_FINDING, NODE_CREATING}))
  }

  lemma {:induction false} ReconcileSees(s: State, env: Environment)
    ensures Sees(Reconcile(s, env).log)
  {
    PreparedSees(s, env);
    ManagedSees(Prepared(s, env), env);
  }

  lemma {:induction false} PreparedSees(s: State, env: Environment)
    ensures Sees(Prepared(s, env).log) && Sees(Probe(Basics(s, env), env).log)
  {
    var started := if s.status == RUNNING then s else s.(status := STARTING);
    BasicsSees(started, env);
    DoSees(AddBareMetal(Basics(started, env)), SYSTEM_INFO, env);
    BasicsSees(s, env);
    DoSees(Basics(s, env), SYSTEM_INFO, env);
  }

  lemma {:induction false} DoSees(r: Run, kind: CallKind, env: Environment)
    requires Sees(r.log) && kind !in {MANAGE_NODES, HANDLE_NODES, INSTALL}
    ensures Sees(r.Do(kind, env).log)
  {
  }

  lemma {:induction false} BasicsSees(s: State, env: Environment)
    ensures Sees(Basics(s, env).log)
  {
  }

  lemma {:induction false} ManagedSees(probed: Run, env: Environment)
    requires Sees(probed.log)
    ensures Sees(Managed(probed, env).log)
  {
  }

  lemma {:induction false} NotInstalledSees(s: State, env: Environment)
    ensures Sees(NotInstalled(s, env).log)
  {
    PreparedSees(s, env);
    LeftSees(Probe(Basics(s, env), env), env);
  }

  lemma {:induction false} LeftSees(probed: Run, env: Environment)
    requires Sees(probed.log)
    ensures var creating := probed.Move(NODE_FINDING, NODE_CREATING);
            Sees(creating.Do(MANAGE_NODES, env).Do(WAIT_SLB, env).log) && Sees(Install(creating, env).log)
  {
    var creating := probed.Move(NODE_FINDING, NODE_CREATING);
    InstallSees(creating, env);
    DoSees(creating.Do(MANAGE_NODES, env), WAIT_SLB, env);
  }

  lemma {:induction false} InstallSees(creating: Run, env: Environment)
    requires Sees(creating.log) && (!creating.failed ==> Without(creating.s.nodes, {NODE_FINDING}))
    ensures Sees(Install(creating, env).log)
  {
  }
}
