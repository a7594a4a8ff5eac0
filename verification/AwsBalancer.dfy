/** The listeners of an AWS load balancer and the target groups behind them, brought to the public ports. */
module AwsBalancer {
  import opened Wrappers
  import opened Text

  datatype PortRule = PortRule(isPublic: bool, startPort: int, endPort: int)

  datatype Listener = Listener(arn: string, port: int, target: string)

  /** A target group of the account, whichever cluster made it. */
  datatype Group = Group(arn: string, name: string, port: int, vpc: string)

  predicate Opens(r: PortRule, p: int) { r.isPublic && r.startPort <= p <= r.endPort }

  /** The ports from one to the other; none if the range is empty. */
  function Range(start: int, end: int): (ports: seq<int>)
    ensures |ports| == if start <= end then end - start + 1 else 0
    ensures forall k :: 0 <= k < |ports| ==> ports[k] == start + k
  {
    seq(if start <= end then end - start + 1 else 0, k => start + k)
  }

  /** The ports to serve, range after range; a port of two ranges comes twice. */
  function PortsOf(rules: seq<PortRule>): seq<int> {
    if rules == [] then []
    else
      var r := rules[|rules| - 1];
      PortsOf(rules[..|rules| - 1]) + if r.isPublic then Range(r.startPort, r.endPort) else []
  }

  method PublicPorts(rules: seq<PortRule>) returns (ports: seq<int>)
    ensures ports == PortsOf(rules)
  {
    ports := [];
    for i := 0 to |rules|
      invariant ports == PortsOf(rules[..i])
    {
      assert rules[..i + 1][..i] == rules[..i];
      if rules[i].isPublic {
        ghost var before := ports;
        var port := rules[i].startPort;
        while port <= rules[i].endPort
          invariant rules[i].startPort <= port && (port <= rules[i].endPort + 1 || port == rules[i].startPort)
          invariant ports == before + Range(rules[i].startPort, port - 1)
          decreases rules[i].endPort - port
        {
          assert Range(rules[i].startPort, port) == Range(rules[i].startPort, port - 1) + [port];
          ports := ports + [port];
          port := port + 1;
        }
        assert Range(rules[i].startPort, port - 1) == Range(rules[i].startPort, rules[i].endPort);
      }
    }
    assert rules[..|rules|] == rules;
  }

  /** A port comes as often as public ranges hold it. */
  lemma {:induction false} PortIsOpened(rules: seq<PortRule>, p: int)
    ensures p in PortsOf(rules) <==> exists i :: 0 <= i < |rules| && Opens(rules[i], p)
  {
    if rules != [] {
      var n := |rules| - 1;
      PortIsOpened(rules[..n], p);
      var last := Range(rules[n].startPort, rules[n].endPort);
      assert p in last <==> rules[n].startPort <= p <= rules[n].endPort by {
        if rules[n].startPort <= p <= rules[n].endPort {
          assert last[p - rules[n].startPort] == p;
        }
      }
      assert forall i :: 0 <= i < n ==> rules[..n][i] == rules[i];
    }
  }

  /** No port comes twice, unless it is served. */
  predicate NoDoubled(ports: seq<int>, served: set<int>) {
    forall i, j :: 0 <= i < j < |ports| && ports[i] == ports[j] ==> ports[i] in served
  }

  /** No two public ranges share a port, unless it is served. */
  ghost predicate NoOverlap(rules: seq<PortRule>, served: set<int>) {
    forall a, b, p :: 0 <= a < b < |rules| && Opens(rules[a], p) && Opens(rules[b], p) ==> p in served
  }

  lemma {:induction false} NoDoubledConcat(front: seq<int>, start: int, end: int, served: set<int>)
    ensures NoDoubled(front + Range(start, end), served)
            <==> NoDoubled(front, served) && forall p :: p in front && start <= p <= end ==> p in served
  {
    var last := Range(start, end);
    var all := front + last;
    if NoDoubled(all, served) {
      forall i, j | 0 <= i < j < |front| && front[i] == front[j] ensures front[i] in served {
        assert all[i] == front[i] && all[j] == front[j];
      }
      forall p | p in front && start <= p <= end ensures p in served {
        var i :| 0 <= i < |front| && front[i] == p;
        assert all[i] == p && all[|front| + (p - start)] == p;
      }
    }
    if NoDoubled(front, served) && forall p :: p in front && start <= p <= end ==> p in served {
      forall i, j | 0 <= i < j < |all| && all[i] == all[j] ensures all[i] in served {
        if j >= |front| && i < |front| {
          assert all[i] in front;
        }
      }
    }
  }

  /** A port is asked for twice exactly when two public ranges share it. */
  lemma {:induction false} DoubledIffOverlap(rules: seq<PortRule>, served: set<int>)
    ensures NoDoubled(PortsOf(rules), served) <==> NoOverlap(rules, served)
  {
    if rules != [] {
      var n := |rules| - 1;
      var front, r := rules[..n], rules[n];
      DoubledIffOverlap(front, served);
      NoDoubledConcat(PortsOf(front), r.startPort, r.endPort, served);
      forall p ensures p in PortsOf(front) <==> exists a :: 0 <= a < n && Opens(rules[a], p) {
        PortIsOpened(front, p);
      }
      LastOverlap(rules, served);
      if !r.isPublic {
        assert PortsOf(rules) == PortsOf(front);
      }
    }
  }

  lemma {:induction false} LastOverlap(rules: seq<PortRule>, served: set<int>)
    requires rules != []
    ensures var n := |rules| - 1;
            NoOverlap(rules, served)
            <==> NoOverlap(rules[..n], served)
                 && forall a, p :: 0 <= a < n && Opens(rules[a], p) && Opens(rules[n], p) ==> p in served
  {
    var n := |rules| - 1;
    var front := rules[..n];
    assert forall a :: 0 <= a < n ==> front[a] == rules[a];
    if NoOverlap(rules, served) {
      forall a, b, p | 0 <= a < b < n && Opens(front[a], p) && Opens(front[b], p) ensures p in served {
        assert Opens(rules[a], p) && Opens(rules[b], p);
      }
    }
    if NoOverlap(front, served) && forall a, p :: 0 <= a < n && Opens(rules[a], p) && Opens(rules[n], p) ==> p in served {
      forall a, b, p | 0 <= a < b < |rules| && Opens(rules[a], p) && Opens(rules[b], p) ensures p in served {
        if b < n {
          assert Opens(front[a], p) && Opens(front[b], p);
        }
      }
    }
  }

  function ListenerPorts(listeners: seq<Listener>): set<int> { set l | l in listeners :: l.port }

  function GroupPorts(groups: seq<Group>): set<int> { set g | g in groups :: g.port }

  function Ports(ports: seq<int>): set<int> { set p | p in ports }

  /** The group with the ARN stands behind the port. */
  predicate Stands(groups: seq<Group>, arn: string, port: int) {
    exists g :: g in groups && g.arn == arn && g.port == port
  }

  predicate DistinctArns(groups: seq<Group>) {
    forall g, h :: g in groups && h in groups && g.arn == h.arn ==> g == h
  }

  predicate DistinctNames(groups: seq<Group>) {
    forall g, h :: g in groups && h in groups && g.name == h.name ==> g == h
  }

  predicate DistinctListeners(listeners: seq<Listener>) {
    forall l, m :: l in listeners && m in listeners && l.arn == m.arn ==> l == m
  }

  predicate OnePerPort(listeners: seq<Listener>) {
    forall l, m :: l in listeners && m in listeners && l.port == m.port ==> l == m
  }

  /** Every listener forwards to a group of its own port. */
  predicate Aligned(listeners: seq<Listener>, groups: seq<Group>) {
    DistinctArns(groups) && forall l :: l in listeners ==> Stands(groups, l.target, l.port)
  }

  predicate Used(arn: string, listeners: seq<Listener>) {
    exists l :: l in listeners && l.target == arn
  }

  /** Listing by load balancer shows only groups some listener forwards to. */
  function Attached(groups: seq<Group>, listeners: seq<Listener>): (out: seq<Group>)
    ensures forall g :: g in out <==> g in groups && Used(g.arn, listeners)
  {
    if groups == [] then []
    else (if Used(groups[0].arn, listeners) then [groups[0]] else []) + Attached(groups[1..], listeners)
  }

  function Keep(listeners: seq<Listener>, arn: string): (out: seq<Listener>)
    ensures forall l :: l in out <==> l in listeners && l.arn != arn
  {
    if listeners == [] then []
    else (if listeners[0].arn == arn then [] else [listeners[0]]) + Keep(listeners[1..], arn)
  }

  function KeepGroups(groups: seq<Group>, arn: string): (out: seq<Group>)
    ensures forall g :: g in out <==> g in groups && g.arn != arn
  {
    if groups == [] then []
    else (if groups[0].arn == arn then [] else [groups[0]]) + KeepGroups(groups[1..], arn)
  }

  // ---------- the service ----------

  /** The name every cluster gives the group of a port. */
  function GroupName(port: int): string { "tpc-" + Itoa(port) }

  lemma {:induction false} GroupNameDecides(p: int, q: int)
    requires GroupName(p) == GroupName(q)
    ensures p == q
  {
    assert GroupName(p)[4..] == Itoa(p) && GroupName(q)[4..] == Itoa(q);
    ItoaInjective(p, q);
  }

  /**
   What the service makes of a create that repeats an earlier one: the existing object, or a
   refusal; and whether it deletes a group some listener forwards to. A name or a port taken
   with other settings is refused by every service.
   */
  datatype Service = Service(repeats: bool, dropsUsed: bool)

  /** The group is just what a create for the port would make in the VPC. */
  predicate Own(g: Group, port: int, vpc: string) {
    g.name == GroupName(port) && g.port == port && g.vpc == vpc
  }

  /** A create for the port is not refused. */
  predicate NameFree(groups: seq<Group>, port: int, vpc: string, repeats: bool) {
    forall g :: g in groups && g.name == GroupName(port) ==> repeats && Own(g, port, vpc)
  }

  /** At most one group was added: one of the port, with a new name and ARN. */
  predicate Grown(was: seq<Group>, now: seq<Group>, listeners: seq<Listener>, port: int, vpc: string) {
    || now == was
    || (&& |now| == |was| + 1 && was <= now && Own(now[|was|], port, vpc)
        && (forall g :: g in was ==> g.arn != now[|was|].arn && g.name != now[|was|].name)
        && !Used(now[|was|].arn, listeners))
  }

  datatype Call = DeleteListener(arn: string) | DeleteGroup(arn: string) | CreateGroup(port: int) | CreateListener(port: int, target: string)

  /** The account as the load balancer of one cluster sees it. With faulty set, any call may fail, without effect. */
  class LoadBalancer {
    const faulty: bool
    const service: Service
    const vpc: string
    var listeners: seq<Listener>
    var groups: seq<Group>
    var calls: seq<Call>

    constructor (faulty: bool, service: Service, vpc: string, listeners: seq<Listener>, groups: seq<Group>)
      ensures this.faulty == faulty && this.service == service && this.vpc == vpc
      ensures this.listeners == listeners && this.groups == groups && calls == []
    {
      this.faulty, this.service, this.vpc := faulty, service, vpc;
      this.listeners, this.groups, calls := listeners, groups, [];
    }

    method Reachable() returns (ok: bool)
      ensures !faulty ==> ok
    {
      var fail: bool := *;
      ok := !(faulty && fail);
    }

    method RemoveListener(arn: string) returns (ok: bool)
      modifies this`listeners, this`calls
      ensures calls == old(calls) + [DeleteListener(arn)]
      ensures listeners == if ok then Keep(old(listeners), arn) else old(listeners)
      ensures !faulty ==> ok
    {
      ok := Reachable();
      calls := calls + [DeleteListener(arn)];
      if ok {
        listeners := Keep(listeners, arn);
      }
    }

    method RemoveGroup(arn: string) returns (ok: bool)
      modifies this`groups, this`calls
      ensures calls == old(calls) + [DeleteGroup(arn)]
      ensures groups == if ok then KeepGroups(old(groups), arn) else old(groups)
      ensures ok ==> service.dropsUsed || !Used(arn, listeners)
      ensures !faulty ==> (ok <==> service.dropsUsed || !Used(arn, listeners))
    {
      ok := Reachable();
      calls := calls + [DeleteGroup(arn)];
      ok := ok && (service.dropsUsed || !Used(arn, listeners));
      if ok {
        groups := KeepGroups(groups, arn);
      }
    }

    /** Creates the group of the port and fills it with the master nodes; a group made stays if the filling fails. */
    method AddGroup(port: int) returns (arn: Option<string>)
      modifies this`groups, this`calls
      ensures calls == old(calls) + [CreateGroup(port)]
      ensures Grown(old(groups), groups, listeners, port, vpc)
      ensures arn.Some? ==> NameFree(old(groups), port, vpc, service.repeats)
      ensures arn.Some? ==> exists g :: g in groups && g.arn == arn.value && Own(g, port, vpc)
      ensures !faulty ==> (arn.Some? <==> NameFree(old(groups), port, vpc, service.repeats))
    {
      calls := calls + [CreateGroup(port)];
      var created := Reachable();
      var registered := Reachable();
      if !created || !NameFree(groups, port, vpc, service.repeats) {
        return None;
      }
      if g :| g in groups && g.name == GroupName(port) {
        arn := Some(g.arn);
      } else {
        var newArn := NewArn();
        groups := groups + [Group(newArn, GroupName(port), port, vpc)];
        arn := Some(newArn);
        assert groups[|groups| - 1].arn == newArn;
      }
      arn := if registered then arn else None;
    }

    /** ARNs are never given twice. */
    method NewArn() returns (arn: string)
      ensures (forall g :: g in groups ==> g.arn != arn) && !Used(arn, listeners)
    {
      arn := *;
      if (exists g :: g in groups && g.arn == arn) || Used(arn, listeners) {
        var taken := seq(|groups|, i requires 0 <= i < |groups| reads this => groups[i].arn)
                     + seq(|listeners|, i requires 0 <= i < |listeners| reads this => listeners[i].target);
        arn := Fresh(taken);
        FreshIsNew(groups, listeners, taken);
      }
    }

    method AddListener(port: int, target: string) returns (ok: bool, arn: string)
      modifies this`listeners, this`calls
      ensures calls == old(calls) + [CreateListener(port, target)]
      ensures !ok ==> listeners == old(listeners)
      ensures ok && port !in ListenerPorts(old(listeners)) ==>
                listeners == old(listeners) + [Listener(arn, port, target)] && forall l :: l in old(listeners) ==> l.arn != arn
      ensures ok && port in ListenerPorts(old(listeners)) ==> service.repeats && listeners == old(listeners)
      ensures !faulty ==>
                (ok <==> port !in ListenerPorts(old(listeners))
                         || (service.repeats && exists l :: l in old(listeners) && l.port == port && l.target == target))
    {
      arn := *;
      ok := Reachable();
      calls := calls + [CreateListener(port, target)];
      if port !in ListenerPorts(listeners) {
        if exists l :: l in listeners && l.arn == arn {
          var taken := seq(|listeners|, i requires 0 <= i < |listeners| reads this => listeners[i].arn);
          arn := Fresh(taken);
          forall l | l in listeners ensures l.arn in taken {
            var i :| 0 <= i < |listeners| && listeners[i] == l;
            assert taken[i] == l.arn;
          }
        }
        if ok {
          listeners := listeners + [Listener(arn, port, target)];
        }
      } else {
        ok := ok && service.repeats && exists l :: l in listeners && l.port == port && l.target == target;
      }
    }
  }

  lemma {:induction false} FreshIsNew(groups: seq<Group>, listeners: seq<Listener>, taken: seq<string>)
    requires |taken| == |groups| + |listeners|
    requires forall i :: 0 <= i < |groups| ==> taken[i] == groups[i].arn
    requires forall i :: 0 <= i < |listeners| ==> taken[|groups| + i] == listeners[i].target
    ensures (forall g :: g in groups ==> g.arn != Fresh(taken)) && !Used(Fresh(taken), listeners)
  {
    forall g | g in groups ensures g.arn in taken {
      var i :| 0 <= i < |groups| && groups[i] == g;
      assert taken[i] == g.arn;
    }
    forall l | l in listeners ensures l.target in taken {
      var i :| 0 <= i < |listeners| && listeners[i] == l;
      assert taken[|groups| + i] == l.target;
    }
  }

  // ---------- which runs can succeed ----------

  /** Some listener on a wanted port forwards to the group: a run finds it attached. */
  predicate Held(g: Group, listeners: seq<Listener>, ports: seq<int>) {
    exists l :: l in listeners && l.port in ports && l.target == g.arn
  }

  /** A run deletes the group, or tries to. */
  predicate Doomed(g: Group, listeners: seq<Listener>, ports: seq<int>) {
    g.port !in ports && Held(g, listeners, ports)
  }

  /** A run finds an attached group of the port. */
  predicate Backed(p: int, listeners: seq<Listener>, groups: seq<Group>, ports: seq<int>) {
    exists g :: g in groups && g.port == p && Held(g, listeners, ports)
  }

  /** A create for the port is not refused once the doomed groups are gone. */
  predicate NameLeft(p: int, listeners: seq<Listener>, groups: seq<Group>, ports: seq<int>, vpc: string, repeats: bool) {
    forall g :: g in groups && !Doomed(g, listeners, ports) && g.name == GroupName(p) ==> repeats && Own(g, p, vpc)
  }

  /**
   What a run needs: no group has to be deleted that the service does not delete; the name for
   each port without an attached group is free, or for a repeating service the cluster's own;
   and where creates are not repeatable, only a port with a listener and a group comes twice.
   */
  predicate CanServe(service: Service, vpc: string, listeners: seq<Listener>, groups: seq<Group>, ports: seq<int>) {
    && (service.dropsUsed || forall g :: g in groups ==> !Doomed(g, listeners, ports))
    && (forall p :: p in ports && !Backed(p, listeners, groups, ports) ==> NameLeft(p, listeners, groups, ports, vpc, service.repeats))
    && (service.repeats || NoDoubled(ports, Served(listeners, groups, ports)))
  }

  /** The wanted ports that have a listener and an attached group. */
  function Served(listeners: seq<Listener>, groups: seq<Group>, ports: seq<int>): set<int> {
    set p | p in ports && p in ListenerPorts(listeners) && Backed(p, listeners, groups, ports)
  }

  /** Wherever a run stops: wanted listeners stay, new ones forward to groups of their port, only doomed groups go, only own ones come. */
  ghost predicate Advanced(l0: seq<Listener>, g0: seq<Group>, l1: seq<Listener>, g1: seq<Group>, ports: seq<int>, vpc: string) {
    && (forall l :: l in l0 && l.port in ports ==> l in l1)
    && (forall l :: l in l1 ==> l in l0 || (l.port in ports && Stands(g1, l.target, l.port)))
    && (forall g :: g in g0 && !Doomed(g, l0, ports) ==> g in g1)
    && (forall g :: g in g1 ==> g in g0 || (g.port in ports && Own(g, g.port, vpc) && !Held(g, l0, ports)))
    && DistinctArns(g1)
  }

  /** With a repeating service a run that could succeed leaves a state from which the next one can, however it ended. */
  lemma {:induction false} RetryCanServe(service: Service, vpc: string, l0: seq<Listener>, g0: seq<Group>, l1: seq<Listener>, g1: seq<Group>, ports: seq<int>)
    requires service.repeats && CanServe(service, vpc, l0, g0, ports) && Advanced(l0, g0, l1, g1, ports, vpc)
    ensures CanServe(service, vpc, l1, g1, ports)
  {
    forall g | g in g1 && Doomed(g, l1, ports) ensures g in g0 && Doomed(g, l0, ports) {
      var l :| l in l1 && l.port in ports && l.target == g.arn;
    }
    forall p | p in ports && !Backed(p, l1, g1, ports) ensures NameLeft(p, l1, g1, ports, vpc, true) {
      if Backed(p, l0, g0, ports) {
        assert false;
      }
      assert NameLeft(p, l0, g0, ports, vpc, true);
      forall g | g in g1 && !Doomed(g, l1, ports) && g.name == GroupName(p) ensures Own(g, p, vpc) {
        if g !in g0 {
          GroupNameDecides(p, g.port);
        }
      }
    }
  }

  // ---------- the four loops ----------

  /** What is left once the first listed ones were looked at. */
  ghost predicate Cleared(was: seq<Listener>, now: seq<Listener>, done: seq<Listener>, ports: seq<int>) {
    forall l :: l in now <==> l in was && (l in done ==> l.port in ports)
  }

  function PortsFound(done: seq<Listener>, ports: seq<int>): set<int> { set l | l in done && l.port in ports :: l.port }

  lemma {:induction false} ClearedStep(was: seq<Listener>, now: seq<Listener>, i: nat, ports: seq<int>)
    requires i < |was| && Cleared(was, now, was[..i], ports) && DistinctListeners(was)
    ensures Cleared(was, if was[i].port in ports then now else Keep(now, was[i].arn), was[..i + 1], ports)
    ensures PortsFound(was[..i + 1], ports) == PortsFound(was[..i], ports) + if was[i].port in ports then {was[i].port} else {}
  {
  }

  /** Listeners on other ports are deleted. */
  method ClearListeners(b: LoadBalancer, ports: seq<int>) returns (ok: bool, found: set<int>)
    requires DistinctListeners(b.listeners)
    modifies b`listeners, b`calls
    ensures forall l :: l in b.listeners ==> l in old(b.listeners)
    ensures forall l :: l in old(b.listeners) && l.port in ports ==> l in b.listeners
    ensures ok ==> forall l :: l in b.listeners ==> l.port in ports
    ensures ok ==> found == ListenerPorts(b.listeners)
    ensures !b.faulty ==> ok
    ensures (forall l :: l in old(b.listeners) ==> l.port in ports) ==> b.listeners == old(b.listeners) && b.calls == old(b.calls)
  {
    found := {};
    ok := b.Reachable();
    if !ok {
      return;
    }
    var listing := b.listeners;
    ghost var idle := forall l :: l in listing ==> l.port in ports;
    for i := 0 to |listing|
      invariant Cleared(listing, b.listeners, listing[..i], ports)
      invariant found == PortsFound(listing[..i], ports)
      invariant idle ==> b.listeners == listing && b.calls == old(b.calls)
    {
      ClearedStep(listing, b.listeners, i, ports);
      if listing[i].port in ports {
        found := found + {listing[i].port};
      } else {
        ok := b.RemoveListener(listing[i].arn);
        if !ok {
          return;
        }
      }
    }
    assert listing[..|listing|] == listing;
    ok := true;
  }

  /** What the look at the attached groups has done: one chosen for each wanted port, those on other ports deleted, and no others. */
  ghost predicate Chosen(was: seq<Group>, now: seq<Group>, done: seq<Group>, byPort: map<int, string>, ports: seq<int>) {
    && (forall p :: p in byPort <==> p in ports && p in GroupPorts(done))
    && (forall p :: p in byPort ==> Stands(was, byPort[p], p))
    && (forall g :: g in now <==> g in was && (g in done ==> g.port in ports))
  }

  lemma {:induction false} ChosenStep(was: seq<Group>, now: seq<Group>, listing: seq<Group>, i: nat, byPort: map<int, string>, ports: seq<int>)
    requires i < |listing| && Chosen(was, now, listing[..i], byPort, ports) && listing[i] in was && DistinctArns(was)
    ensures var g := listing[i];
            && (g.port in ports ==> Chosen(was, now, listing[..i + 1], byPort[g.port := g.arn], ports))
            && (g.port !in ports ==> Chosen(was, KeepGroups(now, g.arn), listing[..i + 1], byPort, ports))
  {
    var g := listing[i];
    assert listing[..i + 1] == listing[..i] + [g];
    assert GroupPorts(listing[..i + 1]) == GroupPorts(listing[..i]) + {g.port};
    OthersSurvive(was, now, g);
  }

  /** Deleting a group by its ARN deletes no other. */
  lemma {:induction false} OthersSurvive(was: seq<Group>, now: seq<Group>, g: Group)
    requires DistinctArns(was) && g in was && forall h :: h in now ==> h in was
    ensures forall h :: h in KeepGroups(now, g.arn) <==> h in now && h != g
  {
  }

  /** The look at the attached groups after i of them. */
  ghost predicate Looked(was: seq<Group>, now: seq<Group>, listing: seq<Group>, i: nat, byPort: map<int, string>, ports: seq<int>, dropsUsed: bool) {
    && i <= |listing|
    && Chosen(was, now, listing[..i], byPort, ports)
    && (dropsUsed || ListingFits(listing[..i], ports))
  }

  lemma {:induction false} LookedStep(was: seq<Group>, now: seq<Group>, listing: seq<Group>, i: nat, byPort: map<int, string>, ports: seq<int>, dropsUsed: bool)
    requires i < |listing| && Looked(was, now, listing, i, byPort, ports, dropsUsed) && listing[i] in was && DistinctArns(was)
    ensures var g := listing[i];
            && (g.port in ports ==> Looked(was, now, listing, i + 1, byPort[g.port := g.arn], ports, dropsUsed))
            && (g.port !in ports && dropsUsed ==> Looked(was, KeepGroups(now, g.arn), listing, i + 1, byPort, ports, dropsUsed))
  {
    ChosenStep(was, now, listing, i, byPort, ports);
    assert listing[..i + 1] == listing[..i] + [listing[i]];
  }

  /** One listed group's turn: chosen for its port, or deleted. */
  method ClearGroup(b: LoadBalancer, ports: seq<int>, listing: seq<Group>, i: nat, byPort: map<int, string>, ghost was: seq<Group>)
    returns (ok: bool, byPort': map<int, string>)
    requires DistinctArns(was) && i < |listing| && listing[i] in was && Used(listing[i].arn, b.listeners)
    requires Looked(was, b.groups, listing, i, byPort, ports, b.service.dropsUsed)
    modifies b`groups, b`calls
    ensures ok ==> Looked(was, b.groups, listing, i + 1, byPort', ports, b.service.dropsUsed)
    ensures !ok ==> b.groups == old(b.groups) && !ListingFits(listing, ports)
    ensures !ok && b.service.dropsUsed ==> b.faulty
    ensures listing[i].port in ports ==> b.groups == old(b.groups) && b.calls == old(b.calls)
  {
    var g := listing[i];
    LookedStep(was, b.groups, listing, i, byPort, ports, b.service.dropsUsed);
    ok, byPort' := true, byPort;
    if g.port in ports {
      byPort' := byPort[g.port := g.arn];
    } else {
      assert g in listing;
      ok := b.RemoveGroup(g.arn);
    }
  }

  /** Only attached groups on other ports are gone. */
  ghost predicate Spared(was: seq<Group>, now: seq<Group>, listeners: seq<Listener>, ports: seq<int>) {
    && (forall g :: g in now ==> g in was)
    && (forall g :: g in was && (Used(g.arn, listeners) ==> g.port in ports) ==> g in now)
  }

  lemma {:induction false} LookedSpares(was: seq<Group>, now: seq<Group>, listeners: seq<Listener>, i: nat, byPort: map<int, string>, ports: seq<int>, dropsUsed: bool)
    requires Looked(was, now, Attached(was, listeners), i, byPort, ports, dropsUsed)
    ensures Spared(was, now, listeners, ports)
  {
    forall g | g in Attached(was, listeners)[..i] ensures Used(g.arn, listeners) {
      assert g in Attached(was, listeners);
    }
  }

  /**
   Attached groups on other ports are deleted; byPort names a group for each port found. Without
   faults only a service that does not delete groups in use makes this fail.
   */
  method ClearGroups(b: LoadBalancer, ports: seq<int>) returns (ok: bool, byPort: map<int, string>)
    requires DistinctArns(b.groups)
    modifies b`groups, b`calls
    ensures ok ==> Chosen(old(b.groups), b.groups, Attached(old(b.groups), b.listeners), byPort, ports)
    ensures Spared(old(b.groups), b.groups, b.listeners, ports)
    ensures ok ==> b.service.dropsUsed || Fitting(old(b.groups), b.listeners, ports)
    ensures !b.faulty ==> (ok <==> b.service.dropsUsed || Fitting(old(b.groups), b.listeners, ports))
    ensures Fitting(old(b.groups), b.listeners, ports) ==> b.groups == old(b.groups) && b.calls == old(b.calls)
  {
    byPort := map[];
    ok := b.Reachable();
    if !ok {
      return;
    }
    ghost var was, dropsUsed := b.groups, b.service.dropsUsed;
    var listing := Attached(b.groups, b.listeners);
    ghost var fits := ListingFits(listing, ports);
    AllListed(was, b.listeners, ports);
    for i := 0 to |listing|
      invariant Looked(was, b.groups, listing, i, byPort, ports, dropsUsed)
      invariant fits ==> b.groups == was && b.calls == old(b.calls)
    {
      assert listing[i] in listing;
      ghost var chosen := byPort;
      ok, byPort := ClearGroup(b, ports, listing, i, byPort, was);
      if !ok {
        LookedSpares(was, b.groups, b.listeners, i, chosen, ports, dropsUsed);
        return;
      }
    }
    LookedSpares(was, b.groups, b.listeners, |listing|, byPort, ports, dropsUsed);
    assert listing[..|listing|] == listing;
    ok := true;
  }

  predicate ListingFits(listing: seq<Group>, ports: seq<int>) {
    forall g :: g in listing ==> g.port in ports
  }

  lemma {:induction false} AllListed(groups: seq<Group>, listeners: seq<Listener>, ports: seq<int>)
    ensures ListingFits(Attached(groups, listeners), ports) <==> Fitting(groups, listeners, ports)
    ensures forall g :: g in Attached(groups, listeners) <==> g in groups && Used(g.arn, listeners)
  {
  }

  /** Every attached group is on a wanted port. */
  predicate Fitting(groups: seq<Group>, listeners: seq<Listener>, ports: seq<int>) {
    forall g :: g in groups && Used(g.arn, listeners) ==> g.port in ports
  }

  /** What the group loop has made: own groups of the ports, under new names and ARNs. */
  ghost predicate Added(was: seq<Group>, now: seq<Group>, listeners: seq<Listener>, done: seq<int>, vpc: string) {
    && (forall g :: g in was ==> g in now)
    && (forall g :: g in now ==> g in was || (g.port in done && Own(g, g.port, vpc) && !Used(g.arn, listeners)))
    && (DistinctArns(was) ==> DistinctArns(now))
    && (DistinctNames(was) ==> DistinctNames(now))
  }

  /** Which creates of the group loop go through. */
  ghost predicate GroupsFit(groups: seq<Group>, listed: set<int>, ports: seq<int>, vpc: string, repeats: bool) {
    && (forall p :: p in ports && p !in listed ==> NameFree(groups, p, vpc, repeats))
    && (repeats || NoDoubled(ports, listed))
  }

  /** The ports looked at have a group, listed or under its name. */
  ghost predicate Named(groups: seq<Group>, done: seq<int>, listed: set<int>) {
    forall p :: p in done && p !in listed ==> exists g :: g in groups && g.name == GroupName(p)
  }

  lemma {:induction false} AddedStep(was: seq<Group>, mid: seq<Group>, now: seq<Group>, listeners: seq<Listener>, ports: seq<int>, i: nat, vpc: string)
    requires i < |ports| && Added(was, mid, listeners, ports[..i], vpc) && Grown(mid, now, listeners, ports[i], vpc)
    ensures Added(was, now, listeners, ports[..i + 1], vpc)
  {
    DistinctGrown(mid, now, listeners, ports[i], vpc);
    assert ports[..i + 1] == ports[..i] + [ports[i]];
  }

  lemma {:induction false} DistinctGrown(was: seq<Group>, now: seq<Group>, listeners: seq<Listener>, port: int, vpc: string)
    requires Grown(was, now, listeners, port, vpc)
    ensures DistinctArns(was) ==> DistinctArns(now)
    ensures DistinctNames(was) ==> DistinctNames(now)
    ensures forall g :: g in was ==> g in now
    ensures forall g :: g in now ==> g in was || (Own(g, port, vpc) && !Used(g.arn, listeners))
  {
    if now != was {
      assert now == was + [now[|was|]];
    }
  }

  /** A create went through: it would have before, and without repeats the port is new. */
  lemma {:induction false} FitStep(was: seq<Group>, mid: seq<Group>, listeners: seq<Listener>, listed: set<int>, ports: seq<int>, i: nat, vpc: string, repeats: bool)
    requires i < |ports| && Added(was, mid, listeners, ports[..i], vpc) && Named(mid, ports[..i], listed)
    requires GroupsFit(was, listed, ports[..i], vpc, repeats) && (ports[i] in listed || NameFree(mid, ports[i], vpc, repeats))
    ensures GroupsFit(was, listed, ports[..i + 1], vpc, repeats)
  {
    var done := ports[..i + 1];
    assert done == ports[..i] + [ports[i]];
    forall g | g in was ensures g in mid {
    }
    if !repeats && ports[i] !in listed {
      assert ports[i] !in ports[..i];
    }
  }

  /** A create was refused: a name is taken, or the port comes twice. */
  lemma {:induction false} Misfit(was: seq<Group>, mid: seq<Group>, listeners: seq<Listener>, listed: set<int>, ports: seq<int>, i: nat, vpc: string, repeats: bool)
    requires i < |ports| && Added(was, mid, listeners, ports[..i], vpc)
    requires ports[i] !in listed && !NameFree(mid, ports[i], vpc, repeats)
    ensures !GroupsFit(was, listed, ports, vpc, repeats)
  {
    var g :| g in mid && g.name == GroupName(ports[i]) && !(repeats && Own(g, ports[i], vpc));
    if g !in was {
      GroupNameDecides(g.port, ports[i]);
      var j :| 0 <= j < i && ports[..i][j] == g.port;
      assert ports[j] == ports[i];
    }
  }

  /** The group loop after i ports: they have groups, and their creates could be told to go through. */
  ghost predicate GroupLoop(was: seq<Group>, now: seq<Group>, listeners: seq<Listener>, ports: seq<int>, i: nat, listed: set<int>, vpc: string, repeats: bool) {
    && i <= |ports|
    && Added(was, now, listeners, ports[..i], vpc)
    && Named(now, ports[..i], listed)
    && GroupsFit(was, listed, ports[..i], vpc, repeats)
  }

  lemma {:induction false} GroupStep(was: seq<Group>, mid: seq<Group>, now: seq<Group>, listeners: seq<Listener>, ports: seq<int>, i: nat,
                                     listed: set<int>, vpc: string, repeats: bool)
    requires i < |ports| && GroupLoop(was, mid, listeners, ports, i, listed, vpc, repeats) && Grown(mid, now, listeners, ports[i], vpc)
    requires ports[i] in listed || (NameFree(mid, ports[i], vpc, repeats) && exists g :: g in now && g.name == GroupName(ports[i]))
    ensures GroupLoop(was, now, listeners, ports, i + 1, listed, vpc, repeats)
  {
    AddedStep(was, mid, now, listeners, ports, i, vpc);
    NamedStep(mid, now, ports, i, listed);
    FitStep(was, mid, listeners, listed, ports, i, vpc, repeats);
  }

  lemma {:induction false} GroupRefused(was: seq<Group>, mid: seq<Group>, now: seq<Group>, listeners: seq<Listener>, ports: seq<int>, i: nat,
                                        listed: set<int>, vpc: string, repeats: bool)
    requires i < |ports| && GroupLoop(was, mid, listeners, ports, i, listed, vpc, repeats) && Grown(mid, now, listeners, ports[i], vpc)
    requires ports[i] !in listed
    ensures Added(was, now, listeners, ports, vpc)
    ensures !NameFree(mid, ports[i], vpc, repeats) ==> !GroupsFit(was, listed, ports, vpc, repeats)
  {
    AddedStep(was, mid, now, listeners, ports, i, vpc);
    AddedMore(was, now, listeners, ports, i + 1, vpc);
    if !NameFree(mid, ports[i], vpc, repeats) {
      Misfit(was, mid, listeners, listed, ports, i, vpc, repeats);
    }
  }

  /** Each of the first i ports has a group of its port, and so has every port byPort knows. */
  ghost predicate Supplied(groups: seq<Group>, byPort: map<int, string>, ports: seq<int>, i: nat) {
    && i <= |ports|
    && (forall p :: p in byPort ==> Stands(groups, byPort[p], p))
    && (forall j :: 0 <= j < i ==> ports[j] in byPort)
  }

  /** Every port without a listed group gets one. */
  method FillGroups(b: LoadBalancer, ports: seq<int>, listed: map<int, string>) returns (ok: bool, byPort: map<int, string>)
    requires forall p :: p in listed ==> Stands(b.groups, listed[p], p)
    modifies b`groups, b`calls
    ensures Added(old(b.groups), b.groups, b.listeners, ports, b.vpc)
    ensures ok ==> Supplied(b.groups, byPort, ports, |ports|)
    ensures ok ==> GroupsFit(old(b.groups), listed.Keys, ports, b.vpc, b.service.repeats)
    ensures !b.faulty ==> (ok <==> GroupsFit(old(b.groups), listed.Keys, ports, b.vpc, b.service.repeats))
    ensures (forall p :: p in ports ==> p in listed) ==> ok && b.groups == old(b.groups) && b.calls == old(b.calls)
  {
    byPort := listed;
    ghost var was, keys, repeats := b.groups, listed.Keys, b.service.repeats;
    for i := 0 to |ports|
      invariant GroupLoop(was, b.groups, b.listeners, ports, i, keys, b.vpc, repeats)
      invariant Supplied(b.groups, byPort, ports, i) && keys <= byPort.Keys
      invariant (forall p :: p in ports ==> p in listed) ==> b.groups == was && b.calls == old(b.calls)
    {
      var port := ports[i];
      assert port in ports;
      if port in listed {
        GroupStep(was, b.groups, b.groups, b.listeners, ports, i, keys, b.vpc, repeats);
      } else {
        ok, byPort := FillGroup(b, ports, i, byPort, was, keys);
        if !ok {
          return;
        }
      }
    }
    assert ports[..|ports|] == ports;
    ok := true;
  }

  lemma {:induction false} AddedMore(was: seq<Group>, now: seq<Group>, listeners: seq<Listener>, ports: seq<int>, n: nat, vpc: string)
    requires n <= |ports| && Added(was, now, listeners, ports[..n], vpc)
    ensures Added(was, now, listeners, ports, vpc)
  {
  }

  lemma {:induction false} NamedStep(mid: seq<Group>, now: seq<Group>, ports: seq<int>, i: nat, listed: set<int>)
    requires i < |ports| && Named(mid, ports[..i], listed) && mid <= now
    requires ports[i] in listed || exists g :: g in now && g.name == GroupName(ports[i])
    ensures Named(now, ports[..i + 1], listed)
  {
    assert ports[..i + 1] == ports[..i] + [ports[i]];
    forall g | g in mid ensures g in now {
    }
  }

  /** The turn of a port without a listed group. */
  method FillGroup(b: LoadBalancer, ports: seq<int>, i: nat, byPort: map<int, string>, ghost was: seq<Group>, ghost listed: set<int>)
    returns (ok: bool, byPort': map<int, string>)
    requires i < |ports| && ports[i] !in listed && Supplied(b.groups, byPort, ports, i)
    requires GroupLoop(was, b.groups, b.listeners, ports, i, listed, b.vpc, b.service.repeats)
    modifies b`groups, b`calls
    ensures ok ==> GroupLoop(was, b.groups, b.listeners, ports, i + 1, listed, b.vpc, b.service.repeats)
    ensures ok ==> Supplied(b.groups, byPort', ports, i + 1) && byPort.Keys <= byPort'.Keys
    ensures Added(was, b.groups, b.listeners, ports, b.vpc) || ok
    ensures !ok && !b.faulty ==> !GroupsFit(was, listed, ports, b.vpc, b.service.repeats)
  {
    ghost var before := b.groups;
    var arn := b.AddGroup(ports[i]);
    ok, byPort' := arn.Some?, byPort;
    if ok {
      byPort' := byPort[ports[i] := arn.value];
      SuppliedStep(before, b.groups, byPort, ports, i, arn.value);
      GroupStep(was, before, b.groups, b.listeners, ports, i, listed, b.vpc, b.service.repeats);
    } else {
      GroupRefused(was, before, b.groups, b.listeners, ports, i, listed, b.vpc, b.service.repeats);
    }
  }

  lemma {:induction false} SuppliedStep(was: seq<Group>, now: seq<Group>, byPort: map<int, string>, ports: seq<int>, i: nat, arn: string)
    requires i < |ports| && Supplied(was, byPort, ports, i) && was <= now && Stands(now, arn, ports[i])
    ensures Supplied(now, byPort[ports[i] := arn], ports, i + 1)
  {
  }

  /** Every port without a listener gets one, forwarding to the group of that port. */
  method FillListeners(b: LoadBalancer, ports: seq<int>, found: set<int>, byPort: map<int, string>) returns (ok: bool)
    requires found == ListenerPorts(b.listeners) && forall p :: p in ports ==> p in byPort
    modifies b`listeners, b`calls
    ensures FillingUpTo(old(b.listeners), b.listeners, ports, found, byPort)
    ensures ok ==> ListenerPorts(b.listeners) == found + Ports(ports)
    ensures ok ==> b.service.repeats || NoDoubled(ports, found)
    ensures !b.faulty ==> (ok <==> b.service.repeats || NoDoubled(ports, found))
    ensures (forall p :: p in ports ==> p in found) ==> ok && b.listeners == old(b.listeners) && b.calls == old(b.calls)
  {
    ghost var was := b.listeners;
    for i := 0 to |ports|
      invariant Filling(was, b.listeners, ports, i, found, byPort)
      invariant b.service.repeats || NoDoubled(ports[..i], found)
      invariant (forall p :: p in ports ==> p in found) ==> b.listeners == was && b.calls == old(b.calls)
    {
      if ports[i] in found {
        FillingSkip(was, b.listeners, ports, i, found, byPort);
        NotDoubled(ports, i, found);
      } else {
        ghost var before := b.listeners;
        var arn;
        ok, arn := b.AddListener(ports[i], byPort[ports[i]]);
        if ports[i] in ListenerPorts(before) {
          DoubledFound(was, before, ports, i, found, byPort);
          FillingSkip(was, before, ports, i, found, byPort);
        } else if ok {
          FillingStep(was, before, ports, i, found, byPort, Listener(arn, ports[i], byPort[ports[i]]));
          NotDoubled(ports, i, found);
        }
        if !ok {
          return;
        }
      }
    }
    assert ports[..|ports|] == ports;
    ok := true;
  }

  /** New listeners are on wanted ports, forward to the chosen groups, and are one for each port. */
  ghost predicate FillingUpTo(was: seq<Listener>, now: seq<Listener>, ports: seq<int>, found: set<int>, byPort: map<int, string>) {
    && (forall l :: l in was ==> l in now)
    && (forall l :: l in now ==> l in was || (l.port in ports && l.port in byPort && l.target == byPort[l.port]))
    && (OnePerPort(was) ==> OnePerPort(now))
    && (DistinctListeners(was) ==> DistinctListeners(now))
  }

  /** What the listener loop has done after i ports. */
  ghost predicate Filling(was: seq<Listener>, now: seq<Listener>, ports: seq<int>, i: nat, found: set<int>, byPort: map<int, string>) {
    && i <= |ports| && FillingUpTo(was, now, ports, found, byPort)
    && ListenerPorts(now) == found + Ports(ports[..i])
  }

  /** A port that has a new listener came before, and that listener is the one a repeat asks for. */
  lemma {:induction false} DoubledFound(was: seq<Listener>, now: seq<Listener>, ports: seq<int>, i: nat, found: set<int>, byPort: map<int, string>)
    requires Filling(was, now, ports, i, found, byPort) && found == ListenerPorts(was)
    requires i < |ports| && ports[i] !in found && ports[i] in ListenerPorts(now)
    ensures !NoDoubled(ports, found)
    ensures ports[i] in byPort && exists l :: l in now && l.port == ports[i] && l.target == byPort[ports[i]]
  {
    assert ports[i] in ports[..i];
    var k :| 0 <= k < i && ports[..i][k] == ports[i];
    assert ports[k] == ports[i];
    var l :| l in now && l.port == ports[i];
    assert l !in was;
  }

  /** A port that is served before or comes for the first time. */
  lemma {:induction false} NotDoubled(ports: seq<int>, i: nat, found: set<int>)
    requires i < |ports| && (ports[i] in found || ports[i] !in ports[..i])
    ensures NoDoubled(ports[..i], found) ==> NoDoubled(ports[..i + 1], found)
  {
    var done := ports[..i + 1];
    assert done == ports[..i] + [ports[i]];
    if NoDoubled(ports[..i], found) {
      forall j, k | 0 <= j < k < |done| && done[j] == done[k] ensures done[j] in found {
        if k == i {
          assert done[j] in ports[..i];
        }
      }
    }
  }

  lemma {:induction false} FillingSkip(was: seq<Listener>, now: seq<Listener>, ports: seq<int>, i: nat, found: set<int>, byPort: map<int, string>)
    requires Filling(was, now, ports, i, found, byPort) && i < |ports| && ports[i] in ListenerPorts(now)
    ensures Filling(was, now, ports, i + 1, found, byPort)
  {
    assert ports[..i + 1] == ports[..i] + [ports[i]];
  }

  lemma {:induction false} FillingStep(was: seq<Listener>, now: seq<Listener>, ports: seq<int>, i: nat, found: set<int>, byPort: map<int, string>, l: Listener)
    requires Filling(was, now, ports, i, found, byPort) && i < |ports| && l.port == ports[i] && l.port !in ListenerPorts(now)
    requires l.port in byPort && l.target == byPort[l.port] && forall m :: m in now ==> m.arn != l.arn
    ensures Filling(was, now + [l], ports, i + 1, found, byPort) && ports[i] !in ports[..i]
  {
    assert ports[..i + 1] == ports[..i] + [ports[i]];
    PortsAppend(now, l);
    forall m | m in now ensures m.port != l.port {
      assert m.port in ListenerPorts(now);
    }
  }

  lemma {:induction false} PortsAppend(listeners: seq<Listener>, l: Listener)
    ensures ListenerPorts(listeners + [l]) == ListenerPorts(listeners) + {l.port}
  {
  }

  // ---------- the whole run ----------

  lemma {:induction false} NothingToDo(listeners: seq<Listener>, groups: seq<Group>, ports: seq<int>)
    requires Aligned(listeners, groups) && ListenerPorts(listeners) == Ports(ports)
    ensures forall l :: l in listeners ==> l.port in ports
    ensures Fitting(groups, listeners, ports)
    ensures forall p :: p in ports ==> p in GroupPorts(Attached(groups, listeners))
  {
    forall l | l in listeners ensures l.port in ports {
      assert l.port in ListenerPorts(listeners);
    }
    forall g | g in groups && Used(g.arn, listeners) ensures g.port in ports {
      var l :| l in listeners && l.target == g.arn;
      var h :| h in groups && h.arn == l.target && h.port == l.port;
    }
    forall p | p in ports ensures p in GroupPorts(Attached(groups, listeners)) {
      assert p in ListenerPorts(listeners);
      var l :| l in listeners && l.port == p;
      var g :| g in groups && g.arn == l.target && g.port == l.port;
      assert g in Attached(groups, listeners);
    }
  }

  /** After the listeners on other ports are gone, attached means held before. */
  lemma {:induction false} AttachedIsHeld(was: seq<Listener>, now: seq<Listener>, ports: seq<int>, g: Group)
    requires forall l :: l in now <==> l in was && l.port in ports
    ensures Used(g.arn, now) <==> Held(g, was, ports)
  {
  }

  /** The conditions of the three stages are those on the state before the run. */
  lemma {:induction false} StagesFit(b: Service, vpc: string, l0: seq<Listener>, g0: seq<Group>, l1: seq<Listener>, g1: seq<Group>,
                                     byPort: map<int, string>, ports: seq<int>)
    requires forall l :: l in l1 <==> l in l0 && l.port in ports
    requires Chosen(g0, g1, Attached(g0, l1), byPort, ports)
    ensures Fitting(g0, l1, ports) <==> forall g :: g in g0 ==> !Doomed(g, l0, ports)
    ensures forall p :: p in byPort <==> p in ports && Backed(p, l0, g0, ports)
    ensures forall p :: NameFree(g1, p, vpc, b.repeats) <==> NameLeft(p, l0, g0, ports, vpc, b.repeats)
    ensures (b.dropsUsed || Fitting(g0, l1, ports)) && GroupsFit(g1, byPort.Keys, ports, vpc, b.repeats)
            && (b.repeats || NoDoubled(ports, ListenerPorts(l1)))
            <==> CanServe(b, vpc, l0, g0, ports)
  {
    forall g: Group ensures Used(g.arn, l1) <==> Held(g, l0, ports) {
      AttachedIsHeld(l0, l1, ports, g);
    }
    forall p ensures p in byPort <==> p in ports && Backed(p, l0, g0, ports) {
      BackedIsListed(p, l0, g0, l1, ports);
    }
    forall p ensures NameFree(g1, p, vpc, b.repeats) <==> NameLeft(p, l0, g0, ports, vpc, b.repeats) {
      LeftIsFree(p, l0, g0, l1, g1, byPort, ports, vpc, b.repeats);
    }
    DoubledInBoth(ports, byPort.Keys, ListenerPorts(l1), Served(l0, g0, ports));
  }

  lemma {:induction false} BackedIsListed(p: int, l0: seq<Listener>, g0: seq<Group>, l1: seq<Listener>, ports: seq<int>)
    requires forall g: Group :: Used(g.arn, l1) <==> Held(g, l0, ports)
    ensures p in GroupPorts(Attached(g0, l1)) <==> Backed(p, l0, g0, ports)
  {
    if g :| g in g0 && g.port == p && Held(g, l0, ports) {
      assert g in Attached(g0, l1);
    }
  }

  lemma {:induction false} LeftIsFree(p: int, l0: seq<Listener>, g0: seq<Group>, l1: seq<Listener>, g1: seq<Group>,
                                      byPort: map<int, string>, ports: seq<int>, vpc: string, repeats: bool)
    requires Chosen(g0, g1, Attached(g0, l1), byPort, ports) && forall g: Group :: Used(g.arn, l1) <==> Held(g, l0, ports)
    ensures NameFree(g1, p, vpc, repeats) <==> NameLeft(p, l0, g0, ports, vpc, repeats)
  {
    forall g: Group ensures g in g1 <==> g in g0 && !Doomed(g, l0, ports) {
    }
  }

  lemma {:induction false} DoubledInBoth(ports: seq<int>, a: set<int>, b: set<int>, both: set<int>)
    requires forall p :: p in both <==> p in ports && p in a && p in b
    ensures NoDoubled(ports, a) && NoDoubled(ports, b) <==> NoDoubled(ports, both)
  {
  }

  /** Wherever a run stops after the listeners on other ports are gone. */
  lemma {:induction false} RunAdvances(l0: seq<Listener>, g0: seq<Group>, l1: seq<Listener>, g1: seq<Group>, l2: seq<Listener>, g2: seq<Group>,
                                       found: set<int>, byPort: map<int, string>, ports: seq<int>, vpc: string)
    requires DistinctArns(g0) && forall l :: l in l1 <==> l in l0 && l.port in ports
    requires Spared(g0, g1, l1, ports)
    requires Added(g1, g2, l1, ports, vpc) && FillingUpTo(l1, l2, ports, found, byPort)
    requires forall p :: p in byPort ==> Stands(g2, byPort[p], p)
    ensures Advanced(l0, g0, l2, g2, ports, vpc)
  {
    forall g: Group ensures Used(g.arn, l1) <==> Held(g, l0, ports) {
      AttachedIsHeld(l0, l1, ports, g);
    }
  }

  /** Every new listener forwards to a group of its port, and so does every old one on a wanted port if it did before. */
  lemma {:induction false} StaysAligned(l0: seq<Listener>, g0: seq<Group>, l1: seq<Listener>, g1: seq<Group>, ports: seq<int>, vpc: string)
    requires Aligned(l0, g0) && Advanced(l0, g0, l1, g1, ports, vpc) && forall l :: l in l1 ==> l.port in ports
    ensures Aligned(l1, g1)
  {
    forall l | l in l1 && l in l0 ensures Stands(g1, l.target, l.port) {
      var g :| g in g0 && g.arn == l.target && g.port == l.port;
      assert !Doomed(g, l0, ports);
    }
  }

  /**
   On success the listeners serve exactly the ports, and every new one forwards to a group of its
   own port. Without faults a run succeeds exactly if CanServe holds before it; with a repeating
   service it then holds after the run too, so that a failed run can be repeated. From an aligned
   balancer that serves the ports, nothing is asked.
   */
  method ManagePorts(b: LoadBalancer, ports: seq<int>) returns (ok: bool)
    requires DistinctListeners(b.listeners) && DistinctArns(b.groups)
    modifies b
    ensures ok ==> ListenerPorts(b.listeners) == Ports(ports)
    ensures ok ==> CanServe(b.service, b.vpc, old(b.listeners), old(b.groups), ports)
    ensures !b.faulty ==> (ok <==> CanServe(b.service, b.vpc, old(b.listeners), old(b.groups), ports))
    ensures Advanced(old(b.listeners), old(b.groups), b.listeners, b.groups, ports, b.vpc)
    ensures b.service.repeats && CanServe(b.service, b.vpc, old(b.listeners), old(b.groups), ports) ==>
              CanServe(b.service, b.vpc, b.listeners, b.groups, ports)
    ensures DistinctListeners(b.listeners) && (OnePerPort(old(b.listeners)) ==> OnePerPort(b.listeners))
    ensures DistinctNames(old(b.groups)) ==> DistinctNames(b.groups)
    ensures ok && Aligned(old(b.listeners), old(b.groups)) ==> Aligned(b.listeners, b.groups)
    ensures Aligned(old(b.listeners), old(b.groups)) && ListenerPorts(old(b.listeners)) == Ports(ports) ==>
              b.listeners == old(b.listeners) && b.groups == old(b.groups) && b.calls == old(b.calls)
  {
    ghost var l0, g0 := b.listeners, b.groups;
    ok := RunStages(b, ports);
    if b.service.repeats && CanServe(b.service, b.vpc, l0, g0, ports) {
      RetryCanServe(b.service, b.vpc, l0, g0, b.listeners, b.groups, ports);
    }
    if ok && Aligned(l0, g0) {
      StaysAligned(l0, g0, b.listeners, b.groups, ports, b.vpc);
    }
  }

  /** The four loops, one after the other. */
  method RunStages(b: LoadBalancer, ports: seq<int>) returns (ok: bool)
    requires DistinctListeners(b.listeners) && DistinctArns(b.groups)
    modifies b
    ensures ok ==> ListenerPorts(b.listeners) == Ports(ports) && forall l :: l in b.listeners ==> l.port in ports
    ensures ok ==> CanServe(b.service, b.vpc, old(b.listeners), old(b.groups), ports)
    ensures !b.faulty ==> (ok <==> CanServe(b.service, b.vpc, old(b.listeners), old(b.groups), ports))
    ensures Advanced(old(b.listeners), old(b.groups), b.listeners, b.groups, ports, b.vpc)
    ensures DistinctListeners(b.listeners) && (OnePerPort(old(b.listeners)) ==> OnePerPort(b.listeners))
    ensures DistinctNames(old(b.groups)) ==> DistinctNames(b.groups)
    ensures Aligned(old(b.listeners), old(b.groups)) && ListenerPorts(old(b.listeners)) == Ports(ports) ==>
              b.listeners == old(b.listeners) && b.groups == old(b.groups) && b.calls == old(b.calls)
  {
    ghost var l0, g0 := b.listeners, b.groups;
    ghost var idle := Aligned(b.listeners, b.groups) && ListenerPorts(b.listeners) == Ports(ports);
    if idle {
      NothingToDo(b.listeners, b.groups, ports);
    }
    var found, byPort;
    ok, found := ClearListeners(b, ports);
    if !ok {
      return;
    }
    ghost var l1 := b.listeners;
    ok, byPort := ClearGroups(b, ports);
    ghost var g1 := b.groups;
    if !ok {
      RunAdvances(l0, g0, l1, g1, l1, g1, found, map[], ports, b.vpc);
      Unfit(b.service, l0, g0, l1, ports);
      return;
    }
    StagesFit(b.service, b.vpc, l0, g0, l1, g1, byPort, ports);
    ok := FillAll(b, ports, found, byPort, l0, g0);
  }

  /** A group in use that has to go. */
  lemma {:induction false} Unfit(b: Service, l0: seq<Listener>, g0: seq<Group>, l1: seq<Listener>, ports: seq<int>)
    requires forall l :: l in l1 <==> l in l0 && l.port in ports
    ensures Fitting(g0, l1, ports) <==> forall g :: g in g0 ==> !Doomed(g, l0, ports)
  {
    forall g: Group ensures Used(g.arn, l1) <==> Held(g, l0, ports) {
      AttachedIsHeld(l0, l1, ports, g);
    }
  }

  /** The last two loops. */
  method FillAll(b: LoadBalancer, ports: seq<int>, found: set<int>, listed: map<int, string>, ghost l0: seq<Listener>, ghost g0: seq<Group>)
    returns (ok: bool)
    requires DistinctListeners(b.listeners) && DistinctArns(g0) && forall l :: l in b.listeners <==> l in l0 && l.port in ports
    requires found == ListenerPorts(b.listeners) && Chosen(g0, b.groups, Attached(g0, b.listeners), listed, ports)
    modifies b
    ensures ok ==> ListenerPorts(b.listeners) == Ports(ports) && forall l :: l in b.listeners ==> l.port in ports
    ensures ok ==> GroupsFit(old(b.groups), listed.Keys, ports, b.vpc, b.service.repeats) && (b.service.repeats || NoDoubled(ports, found))
    ensures !b.faulty ==>
              (ok <==> GroupsFit(old(b.groups), listed.Keys, ports, b.vpc, b.service.repeats) && (b.service.repeats || NoDoubled(ports, found)))
    ensures Advanced(l0, g0, b.listeners, b.groups, ports, b.vpc)
    ensures DistinctListeners(b.listeners) && (OnePerPort(old(b.listeners)) ==> OnePerPort(b.listeners))
    ensures DistinctNames(old(b.groups)) ==> DistinctNames(b.groups)
    ensures (forall p :: p in ports ==> p in listed && p in found) ==>
              b.listeners == old(b.listeners) && b.groups == old(b.groups) && b.calls == old(b.calls)
  {
    ghost var l1, g1 := b.listeners, b.groups;
    forall p | p in listed ensures Stands(b.groups, listed[p], p) {
      var g :| g in g0 && g.arn == listed[p] && g.port == p;
      assert g in b.groups;
    }
    var byPort;
    ok, byPort := FillGroups(b, ports, listed);
    if !ok {
      RunAdvances(l0, g0, l1, g1, l1, b.groups, found, map[], ports, b.vpc);
      return;
    }
    ok := FillListeners(b, ports, found, byPort);
    RunAdvances(l0, g0, l1, g1, b.listeners, b.groups, found, byPort, ports, b.vpc);
    if ok {
      Exactly(b.listeners, found, ports);
    }
  }

  lemma {:induction false} Exactly(listeners: seq<Listener>, found: set<int>, ports: seq<int>)
    requires ListenerPorts(listeners) == found + Ports(ports) && forall p :: p in found ==> p in ports
    ensures ListenerPorts(listeners) == Ports(ports) && forall l :: l in listeners ==> l.port in ports
  {
    forall l | l in listeners ensures l.port in ports {
      assert l.port in ListenerPorts(listeners);
    }
  }

  /**
   The port part of ManageSLB. With a repeating service that keeps no group from being deleted, a
   run without faults fails exactly if the group name of a public port without an attached group
   is taken with other settings: public ranges may overlap. A service that refuses repeats fails
   it also if two public ranges share a port that has no listener or no attached group.
   */
  method ManageRules(b: LoadBalancer, rules: seq<PortRule>) returns (ok: bool)
    requires DistinctListeners(b.listeners) && DistinctArns(b.groups)
    modifies b
    ensures ok ==> forall p :: p in ListenerPorts(b.listeners) <==> exists i :: 0 <= i < |rules| && Opens(rules[i], p)
    ensures !b.faulty ==> (ok <==> RulesServable(b.service, b.vpc, old(b.listeners), old(b.groups), rules))
  {
    ghost var l0, g0 := b.listeners, b.groups;
    var ports := PublicPorts(rules);
    ServableRules(b.service, b.vpc, l0, g0, rules);
    ok := ManagePorts(b, ports);
    forall p ensures p in ports <==> exists i :: 0 <= i < |rules| && Opens(rules[i], p) {
      PortIsOpened(rules, p);
    }
  }

  ghost predicate RulesServable(service: Service, vpc: string, listeners: seq<Listener>, groups: seq<Group>, rules: seq<PortRule>) {
    var ports := PortsOf(rules);
    && (service.dropsUsed || forall g :: g in groups ==> !Doomed(g, listeners, ports))
    && (forall i, p :: 0 <= i < |rules| && Opens(rules[i], p) && !Backed(p, listeners, groups, ports) ==>
                         NameLeft(p, listeners, groups, ports, vpc, service.repeats))
    && (service.repeats || NoOverlap(rules, Served(listeners, groups, ports)))
  }

  lemma {:induction false} ServableRules(service: Service, vpc: string, listeners: seq<Listener>, groups: seq<Group>, rules: seq<PortRule>)
    ensures RulesServable(service, vpc, listeners, groups, rules) <==> CanServe(service, vpc, listeners, groups, PortsOf(rules))
  {
    DoubledIffOverlap(rules, Served(listeners, groups, PortsOf(rules)));
    forall p ensures p in PortsOf(rules) <==> exists i :: 0 <= i < |rules| && Opens(rules[i], p) {
      PortIsOpened(rules, p);
    }
  }

  // ---------- what stands in the way ----------

  /** Two public ranges that meet in a port fail on a new balancer exactly with a service that refuses repeats. */
  lemma {:induction false} OverlapFails(service: Service, vpc: string)
    ensures var ports := PortsOf([PortRule(true, 80, 81), PortRule(true, 81, 82)]);
            CanServe(service, vpc, [], [], ports) <==> service.repeats
  {
    var rules := [PortRule(true, 80, 81), PortRule(true, 81, 82)];
    var ports := PortsOf(rules);
    DoubledIffOverlap(rules, Served([], [], ports));
    assert Opens(rules[0], 81) && Opens(rules[1], 81) && 81 !in Served([], [], ports);
  }

  /** With a repeating service it does not matter how often a port is asked for. */
  lemma {:induction false} DoubledPortsDoNotMatter(service: Service, vpc: string, listeners: seq<Listener>, groups: seq<Group>, ports: seq<int>, ports': seq<int>)
    requires service.repeats && Ports(ports) == Ports(ports')
    ensures CanServe(service, vpc, listeners, groups, ports) <==> CanServe(service, vpc, listeners, groups, ports')
  {
    forall p ensures p in ports <==> p in ports' {
      assert p in ports <==> p in Ports(ports);
      assert p in ports' <==> p in Ports(ports');
    }
    forall g: Group ensures Held(g, listeners, ports) <==> Held(g, listeners, ports') {
    }
    forall p ensures Backed(p, listeners, groups, ports) <==> Backed(p, listeners, groups, ports') {
    }
  }

  /** A cluster in another VPC that has the group of a public port keeps every other cluster without it from serving that port. */
  lemma {:induction false} SecondClusterFails(service: Service, vpc: string, listeners: seq<Listener>, groups: seq<Group>, ports: seq<int>, p: int, g: Group)
    requires p in ports && !Backed(p, listeners, groups, ports)
    requires g in groups && g.name == GroupName(p) && g.vpc != vpc && !Held(g, listeners, ports)
    ensures !CanServe(service, vpc, listeners, groups, ports)
  {
    assert !Doomed(g, listeners, ports);
  }

  /**
   Once the listeners of closed ports are deleted no listing shows their groups any more: from an
   aligned balancer no run deletes a group, and after a successful one that of a closed port is
   left without a listener.
   */
  lemma {:induction false} ClosedPortsLeaveGroups(l0: seq<Listener>, g0: seq<Group>, l1: seq<Listener>, g1: seq<Group>, ports: seq<int>, vpc: string, g: Group)
    requires Aligned(l0, g0) && Advanced(l0, g0, l1, g1, ports, vpc) && g in g0
    ensures g in g1
    ensures g.port !in ports && (forall l :: l in l1 ==> l.port in ports) ==> !Used(g.arn, l1)
  {
    if l :| l in l0 && l.target == g.arn {
      var h :| h in g0 && h.arn == l.target && h.port == l.port;
    }
    forall l | l in l1 && l.target == g.arn && l.port in ports ensures g.port in ports {
      if l !in l0 {
        var h :| h in g1 && h.arn == l.target && h.port == l.port;
      }
    }
  }

  /** No listener on another port stands before a group of the port. */
  lemma {:induction false} NotBacked(listeners: seq<Listener>, groups: seq<Group>, ports: seq<int>, p: int)
    requires Aligned(listeners, groups) && p !in ListenerPorts(listeners)
    ensures !Backed(p, listeners, groups, ports)
  {
    forall g, l | g in groups && l in listeners && l.target == g.arn ensures g.port in ListenerPorts(listeners) {
      var h :| h in groups && h.arn == l.target && h.port == l.port;
    }
  }

  /** The group names of the ports are the cluster's own, or free. */
  predicate OwnNames(groups: seq<Group>, ports: seq<int>, vpc: string) {
    forall g, p :: g in groups && p in ports && g.name == GroupName(p) ==> Own(g, p, vpc)
  }

  lemma {:induction false} OwnNamesServe(service: Service, vpc: string, listeners: seq<Listener>, groups: seq<Group>, ports: seq<int>)
    requires service.repeats && Aligned(listeners, groups) && OwnNames(groups, ports, vpc)
    ensures CanServe(service, vpc, listeners, groups, ports)
  {
    forall g | g in groups ensures !Doomed(g, listeners, ports) {
      if l :| l in listeners && l.port in ports && l.target == g.arn {
        var h :| h in groups && h.arn == l.target && h.port == l.port;
      }
    }
  }

  lemma {:induction false} OwnNamesStay(l0: seq<Listener>, g0: seq<Group>, l1: seq<Listener>, g1: seq<Group>, fewer: seq<int>, ports: seq<int>, vpc: string)
    requires OwnNames(g0, ports, vpc) && Advanced(l0, g0, l1, g1, fewer, vpc)
    ensures OwnNames(g1, ports, vpc)
  {
    forall g, p | g in g1 && p in ports && g.name == GroupName(p) ensures Own(g, p, vpc) {
      if g !in g0 {
        GroupNameDecides(g.port, p);
      }
    }
  }

  /** So a port that was closed can be opened again only if the service repeats creates, and then it can if no one else has the names. */
  method CloseAndReopen(b: LoadBalancer, fewer: seq<int>, ports: seq<int>, p: int, ghost g: Group) returns (closed: bool, reopened: bool)
    requires DistinctListeners(b.listeners) && Aligned(b.listeners, b.groups)
    requires g in b.groups && Own(g, p, b.vpc) && p !in fewer && p in ports
    modifies b
    ensures closed && reopened ==> b.service.repeats
    ensures !b.faulty && b.service.repeats && OwnNames(old(b.groups), fewer, b.vpc) && OwnNames(old(b.groups), ports, b.vpc) ==>
              closed && reopened
  {
    ghost var l0, g0 := b.listeners, b.groups;
    ghost var own := b.service.repeats && OwnNames(g0, fewer, b.vpc) && OwnNames(g0, ports, b.vpc);
    if own {
      OwnNamesServe(b.service, b.vpc, l0, g0, fewer);
    }
    closed := ManagePorts(b, fewer);
    if !closed {
      return closed, false;
    }
    ghost var l1, g1 := b.listeners, b.groups;
    Reopening(b.service, l0, g0, l1, g1, fewer, ports, p, g, b.vpc);
    if own {
      OwnNamesStay(l0, g0, l1, g1, fewer, ports, b.vpc);
      OwnNamesServe(b.service, b.vpc, l1, g1, ports);
    }
    reopened := ManagePorts(b, ports);
  }

  lemma {:induction false} Reopening(service: Service, l0: seq<Listener>, g0: seq<Group>, l1: seq<Listener>, g1: seq<Group>,
                                     fewer: seq<int>, ports: seq<int>, p: int, g: Group, vpc: string)
    requires Aligned(l0, g0) && Aligned(l1, g1) && Advanced(l0, g0, l1, g1, fewer, vpc) && ListenerPorts(l1) == Ports(fewer)
    requires g in g0 && Own(g, p, vpc) && p !in fewer && p in ports
    ensures CanServe(service, vpc, l1, g1, ports) ==> service.repeats
  {
    forall l | l in l1 ensures l.port in fewer {
      assert l.port in ListenerPorts(l1);
    }
    ClosedPortsLeaveGroups(l0, g0, l1, g1, fewer, vpc, g);
    NotBacked(l1, g1, ports, p);
    assert !Doomed(g, l1, ports);
  }
}
