/**
 One cluster event: every call into the infrastructure, the runtime and the database may fail,
 and any sequence of events may follow. HandleClusterEvent is proved against the function
 Handle, and the guarantees are proved about Handle and about runs of it.
 */
module Lifecycle {
  import opened Wrappers
  import opened Clusters
  import opened IpRange

  /** The calls of an event; within one event each is made at most once. */
  datatype CallKind =
    | GET_ZONES | MANAGE_BASIC | DELETE_BASIC | SYSTEM_INFO | RELOAD | MANAGE_NODES | HANDLE_NODES
    | INSTALL | UNINSTALL | WAIT_SLB | RUNTIME_INSTALL | SAVE

  /** A call, whether it succeeded, and the nodes as they were when it was made. */
  datatype Call = Call(kind: CallKind, ok: bool, nodes: seq<Node>)

  /**
   How the environment behaves during one event: whether the Kubernetes cluster answers, which
   calls fail, whether the server runs in the local environment, and which nodes (by key) the
   system-info probe takes off the list.
   */
  datatype Environment = Environment(clusterExists: bool, fails: set<CallKind>, local: bool, lost: set<nat>)

  datatype State = State(
    status: ClusterStatus, level: Level, cloud: bool, sizes: seq<int32>,
    ips: seq<string>, username: string, nodes: seq<Node>, nextKey: nat)

  /** An event under way: the state, the calls so far, and whether one of them has failed. */
  datatype Run = Run(s: State, log: seq<Call>, failed: bool) {

    function Do(kind: CallKind, env: Environment): Run {
      if failed then this else Run(s, log + [Call(kind, kind !in env.fails, s.nodes)], kind in env.fails)
    }

    function With(nodes: seq<Node>): Run {
      if failed then this else this.(s := s.(nodes := nodes))
    }

    function Move(from: NodeStatus, to: NodeStatus): Run {
      With(FromTo(s.nodes, from, to))
    }
  }

  function Drop(nodes: seq<Node>, lost: set<nat>): (out: seq<Node>)
    ensures forall n :: n in out <==> n in nodes && n.key !in lost
  {
    if nodes == [] then []
    else if nodes[0].key in lost then Drop(nodes[1..], lost)
    else [nodes[0]] + Drop(nodes[1..], lost)
  }

  predicate LevelChanges(s: State) {
    s.cloud && LevelFor(TotalSize(s.sizes)) != NO_LEVEL && LevelFor(TotalSize(s.sizes)) != s.level
  }

  /** Zones and basic resources are managed only when the level changes. */
  function Basics(s: State, env: Environment): Run {
    if LevelChanges(s) then
      Run(s.(level := LevelFor(TotalSize(s.sizes))), [], false).Do(GET_ZONES, env).Do(MANAGE_BASIC, env)
    else Run(s, [], false)
  }

  function Probe(r: Run, env: Environment): Run {
    var p := r.Do(SYSTEM_INFO, env);
    p.With(Drop(p.s.nodes, env.lost))
  }

  function AddBareMetal(r: Run): Run {
    if r.failed || r.s.cloud then r
    else
      var nodes := BareMetalNodes(r.s.nodes, r.s.ips, r.s.nextKey, r.s.username);
      r.(s := r.s.(nodes := nodes, nextKey := r.s.nextKey + (if |nodes| > |r.s.nodes| then |nodes| - |r.s.nodes| else 0)))
  }

  function Stop(s: State, env: Environment): Run {
    var r := Run(s.(nodes := MarkDeleting(s.nodes)), [], false)
             .Do(RELOAD, env).Do(HANDLE_NODES, env).Do(UNINSTALL, env).Do(MANAGE_NODES, env);
    var r' := if s.cloud then r.Do(DELETE_BASIC, env) else r;
    r'.With(AllTo(r'.s.nodes, NODE_DELETED))
  }

  function Reconcile(s: State, env: Environment): Run { Managed(Prepared(s, env), env) }

  function Prepared(s: State, env: Environment): Run {
    var started := if s.status == RUNNING then s else s.(status := STARTING);
    Probe(AddBareMetal(Basics(started, env)), env)
  }

  function Managed(probed: Run, env: Environment): Run {
    var handled := probed.Move(NODE_FINDING, NODE_CREATING).Do(RELOAD, env).Do(MANAGE_NODES, env)
                   .Move(NODE_CREATING, NODE_PENDING).Do(HANDLE_NODES, env);
    handled.Move(NODE_PENDING, NODE_RUNNING).Move(NODE_DELETING, NODE_DELETED)
  }

  /** After a failed call nothing more is done. */
  lemma {:induction false} FailureStays(r: Run, env: Environment)
    requires r.failed
    ensures Managed(r, env) == r
  {
  }

  function Install(creating: Run, env: Environment): Run {
    var installed := creating.Move(NODE_CREATING, NODE_PENDING).Do(INSTALL, env)
                     .Move(NODE_PENDING, NODE_RUNNING).Do(RUNTIME_INSTALL, env);
    if installed.failed then installed else installed.(s := installed.s.(status := RUNNING))
  }

  function NotInstalled(s: State, env: Environment): Run {
    if s.status != STARTING then Run(s, [], false)
    else
      var probed := Probe(Basics(s, env), env);
      if probed.failed || probed.s.nodes == [] then probed
      else
        var creating := probed.Move(NODE_FINDING, NODE_CREATING);
        if env.local then creating.Do(MANAGE_NODES, env).Do(WAIT_SLB, env) else Install(creating, env)
  }

  function Path(s: State, env: Environment): Run {
    if s.status == STOPPING then Stop(s, env)
    else if env.clusterExists then NotInstalled(s, env)
    else Reconcile(s, env)
  }

  /** The whole event: a failure leaves the cluster in ERROR, and the cluster is saved either way. */
  function Handle(s: State, env: Environment): Run {
    var r := Path(s, env);
    var s' := if r.failed then r.s.(status := ERROR) else r.s;
    Run(s', r.log + [Call(SAVE, SAVE !in env.fails, s'.nodes)], r.failed)
  }

  // ---------- the code ----------

  function StateOf(c: Cluster): State
    reads c
  {
    State(c.status, c.level, c.provider.IsCloud(), c.groupSizes, c.Ips(), c.nodeUsername, c.nodes, c.nextKey)
  }

  /** The infrastructure, the runtime and the database behind one event. */
  class Backend {
    const env: Environment
    var log: seq<Call>

    constructor (env: Environment)
      ensures this.env == env && log == []
    {
      this.env, log := env, [];
    }

    method Do(kind: CallKind, nodes: seq<Node>) returns (err: bool)
      modifies this`log
      ensures err == (kind in env.fails)
      ensures log == old(log) + [Call(kind, !err, nodes)]
    {
      err := kind in env.fails;
      log := log + [Call(kind, !err, nodes)];
    }
  }

  class ClusterUsecase {
    const backend: Backend

    constructor (backend: Backend)
      ensures this.backend == backend
    {
      this.backend := backend;
    }

    method ManageBasics(c: Cluster) returns (err: bool)
      requires backend.log == []
      modifies c`level, backend
      ensures Run(StateOf(c), backend.log, err) == Basics(old(StateOf(c)), backend.env)
    {
      if !c.provider.IsCloud() {
        return false;
      }
      var changed := c.SettingClusterLevelByNodeNumber();
      if !changed {
        return false;
      }
      err := backend.Do(GET_ZONES, c.nodes);
      if err {
        return;
      }
      err := backend.Do(MANAGE_BASIC, c.nodes);
    }

    method GetNodesSystemInfo(c: Cluster) returns (err: bool)
      modifies c`nodes, backend
      ensures Run(StateOf(c), backend.log, err) == Probe(Run(old(StateOf(c)), old(backend.log), false), backend.env)
    {
      err := backend.Do(SYSTEM_INFO, c.nodes);
      if !err {
        c.nodes := Drop(c.nodes, backend.env.lost);
      }
    }

    method StopPath(c: Cluster) returns (err: bool)
      requires backend.log == []
      modifies c`nodes, backend
      ensures Run(StateOf(c), backend.log, err) == Stop(old(StateOf(c)), backend.env)
    {
      c.nodes := MarkDeleting(c.nodes);
      err := backend.Do(RELOAD, c.nodes);
      if err {
        return;
      }
      err := backend.Do(HANDLE_NODES, c.nodes);
      if err {
        return;
      }
      err := backend.Do(UNINSTALL, c.nodes);
      if err {
        return;
      }
      err := backend.Do(MANAGE_NODES, c.nodes);
      if err {
        return;
      }
      if c.provider.IsCloud() {
        err := backend.Do(DELETE_BASIC, c.nodes);
        if err {
          return;
        }
      }
      c.nodes := AllTo(c.nodes, NODE_DELETED);
    }

    method HandlerClusterNotInstalled(c: Cluster) returns (err: bool)
      requires backend.log == []
      modifies c`status, c`level, c`nodes, backend
      ensures Run(StateOf(c), backend.log, err) == NotInstalled(old(StateOf(c)), backend.env)
    {
      if c.status != STARTING {
        return false;
      }
      err := ManageBasics(c);
      if err {
        return;
      }
      err := GetNodesSystemInfo(c);
      if err {
        return;
      }
      if |c.nodes| == 0 {
        return false;
      }
      c.SetNodeStatusFromTo(NODE_FINDING, NODE_CREATING);
      if backend.env.local {
        err := backend.Do(MANAGE_NODES, c.nodes);
        if err {
          return;
        }
        err := backend.Do(WAIT_SLB, c.nodes);
        return;
      }
      c.SetNodeStatusFromTo(NODE_CREATING, NODE_PENDING);
      err := backend.Do(INSTALL, c.nodes);
      if err {
        return;
      }
      c.SetNodeStatusFromTo(NODE_PENDING, NODE_RUNNING);
      err := backend.Do(RUNTIME_INSTALL, c.nodes);
      if err {
        return;
      }
      c.status := RUNNING;
    }

    method ReconcilePath(c: Cluster) returns (err: bool)
      requires backend.log == []
      requires Ip4ToUint32(c.nodeEndIp) < MAX_UINT32
      modifies c`status, c`level, c`nodes, c`nextKey, backend
      ensures Run(StateOf(c), backend.log, err) == Reconcile(old(StateOf(c)), backend.env)
    {
      err := PrepareNodes(c);
      if err {
        FailureStays(Run(StateOf(c), backend.log, true), backend.env);
        return;
      }
      err := ManageNodes(c);
    }

    /** The part of the reconcile path up to and including the look at the nodes. */
    method PrepareNodes(c: Cluster) returns (err: bool)
      requires backend.log == []
      requires Ip4ToUint32(c.nodeEndIp) < MAX_UINT32
      modifies c`status, c`level, c`nodes, c`nextKey, backend
      ensures Run(StateOf(c), backend.log, err) == Prepared(old(StateOf(c)), backend.env)
    {
      if c.status != RUNNING {
        c.status := STARTING;
      }
      err := ManageBasics(c);
      if err {
        return;
      }
      if !c.provider.IsCloud() {
        c.SetBareMetalNode();
      }
      err := GetNodesSystemInfo(c);
    }

    /** The part of the reconcile path after the nodes were looked at. */
    method ManageNodes(c: Cluster) returns (err: bool)
      modifies c`nodes, backend
      ensures Run(StateOf(c), backend.log, err) == Managed(Run(old(StateOf(c)), old(backend.log), false), backend.env)
    {
      c.SetNodeStatusFromTo(NODE_FINDING, NODE_CREATING);
      err := backend.Do(RELOAD, c.nodes);
      if err {
        return;
      }
      err := backend.Do(MANAGE_NODES, c.nodes);
      if err {
        return;
      }
      c.SetNodeStatusFromTo(NODE_CREATING, NODE_PENDING);
      err := backend.Do(HANDLE_NODES, c.nodes);
      if err {
        return;
      }
      c.SetNodeStatusFromTo(NODE_PENDING, NODE_RUNNING);
      c.SetNodeStatusFromTo(NODE_DELETING, NODE_DELETED);
    }

    /** A bare-metal range ending at 255.255.255.255 would make the source loop for ever. */
    method HandleClusterEvent(c: Cluster) returns (err: bool)
      requires backend.log == []
      requires Ip4ToUint32(c.nodeEndIp) < MAX_UINT32
      modifies c`status, c`level, c`nodes, c`nextKey, backend
      ensures Run(StateOf(c), backend.log, err) == Handle(old(StateOf(c)), backend.env)
    {
      if c.status == STOPPING {
        err := StopPath(c);
      } else if backend.env.clusterExists {
        err := HandlerClusterNotInstalled(c);
      } else {
        err := ReconcilePath(c);
      }
      if err {
        c.status := ERROR;
      }
      var saveErr := backend.Do(SAVE, c.nodes);  // the source drops this error
    }
  }
}
