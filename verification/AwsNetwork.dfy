/** Taking an AWS network down entry by entry, and the pruning of AWS subnets. */
module AwsNetworks {
  import opened Wrappers
  import opened Registry
  import opened RegistryFacts

  /** The types handled, in the order they are taken down. */
  const ORDER: seq<ResourceType> :=
    [LOAD_BALANCER, SECURITY_GROUP, NAT_GATEWAY, ELASTIC_IP, ROUTE_TABLE, SUBNET, INTERNET_GATEWAY, VPC]

  /** A lookup by id: a NotFound error, an answer with the resource or with none, or another error. */
  datatype Lookup = Missing | Found | NoneListed | LookupFailed

  /** The lookup of the VPC: a NotFound error is an error like any other here. */
  datatype VpcLookup = VpcMissing | NoVpc | DefaultOne | Ordinary | VpcLookupFailed

  /** What the cloud has answered, and what it was asked to delete. */
  datatype Evidence =
    | Seen(kind: ResourceType, refId: string) | NotFound(kind: ResourceType, refId: string)
    | NotListed(kind: ResourceType, refId: string) | DefaultVpc(refId: string)
    | Tried(kind: ResourceType, refId: string) | Deleted(kind: ResourceType, refId: string)

  function KindOf(e: Evidence): ResourceType {
    match e
    case DefaultVpc(_) => VPC
    case _ => e.kind
  }

  /** The entry may go: it was deleted, or the cloud answered that there is nothing to delete. */
  predicate Evident(log: seq<Evidence>, kind: ResourceType, refId: string) {
    || Deleted(kind, refId) in log
    || (kind != VPC && NotFound(kind, refId) in log)
    || (kind in {ROUTE_TABLE, VPC} && NotListed(kind, refId) in log)
    || (kind == VPC && DefaultVpc(refId) in log)
  }

  /** The answer after which a delete is asked for; an empty answer stops it for tables and the VPC only. */
  predicate There(e: Evidence, kind: ResourceType, refId: string) {
    e == Seen(kind, refId) || (e == NotListed(kind, refId) && kind !in {ROUTE_TABLE, VPC})
  }

  /** Only recorded resources are deleted, each right after the cloud answered that it is there; gateways to the internet are not looked up. */
  ghost predicate Lawful(was: Resources, log: seq<Evidence>) {
    forall i :: 0 <= i < |log| ==> LawfulAt(was, log, i)
  }

  ghost predicate LawfulAt(was: Resources, log: seq<Evidence>, i: nat)
    requires i < |log|
  {
    match log[i]
    case Tried(kind, refId) =>
      Registered(was, kind, refId) && (kind == INTERNET_GATEWAY || (i > 0 && There(log[i - 1], kind, refId)))
    case Deleted(kind, refId) => i > 0 && log[i - 1] == Tried(kind, refId)
    case _ => true
  }

  lemma {:induction false} LawfulConcat(was: Resources, a: seq<Evidence>, b: seq<Evidence>)
    requires Lawful(was, a) && Lawful(was, b)
    ensures Lawful(was, a + b)
  {
    forall i | 0 <= i < |a + b| ensures LawfulAt(was, a + b, i) {
      if i < |a| {
        assert LawfulAt(was, a, i);
      } else {
        assert LawfulAt(was, b, i - |a|);
      }
    }
  }

  /** Resources registered later were registered before, as entries only go. */
  lemma {:induction false} LawfulBefore(was: Resources, mid: Resources, log: seq<Evidence>)
    requires Lawful(mid, log) && forall i :: 0 <= i < |log| ==> OfType(mid, KindOf(log[i])) == OfType(was, KindOf(log[i]))
    ensures Lawful(was, log)
  {
    forall i | 0 <= i < |log| ensures LawfulAt(was, log, i) {
      assert LawfulAt(mid, log, i);
      if log[i].Tried? {
        ByRefKept(was, mid, log[i].kind, log[i].refId);
      }
    }
  }

  /** The cloud's interface. With faulty set, every call may fail. log keeps answers and deletes. */
  class AwsCloud {
    const faulty: bool
    var log: seq<Evidence>

    constructor (faulty: bool)
      ensures this.faulty == faulty && log == []
    {
      this.faulty, log := faulty, [];
    }

    method Reachable() returns (ok: bool)
      ensures !faulty ==> ok
    {
      var fail: bool := *;
      ok := !(faulty && fail);
    }

    method Describe(kind: ResourceType, refId: string) returns (r: Lookup)
      modifies this
      ensures log == old(log)
                     + match r case Missing => [NotFound(kind, refId)] case NoneListed => [NotListed(kind, refId)]
                               case Found => [Seen(kind, refId)] case LookupFailed => []
      ensures !faulty ==> !r.LookupFailed?
    {
      var ok := Reachable();
      r := *;
      if !ok {
        return LookupFailed;
      }
      match r {
        case Missing => log := log + [NotFound(kind, refId)];
        case NoneListed => log := log + [NotListed(kind, refId)];
        case _ =>
          r := Found;
          log := log + [Seen(kind, refId)];
      }
    }

    /** Listeners and target groups, ingress rules, associations and routes, or the attachment: all cleared, or some call failed. */
    method ClearDependents(kind: ResourceType, refId: string) returns (ok: bool)
      ensures !faulty ==> ok
    {
      ok := Reachable();
    }

    method Delete(kind: ResourceType, refId: string) returns (ok: bool)
      modifies this
      ensures log == old(log) + [Tried(kind, refId)] + if ok then [Deleted(kind, refId)] else []
      ensures !faulty ==> ok
    {
      log := log + [Tried(kind, refId)];
      ok := Reachable();
      if ok {
        log := log + [Deleted(kind, refId)];
      }
    }

    method WaitDeleted() returns (ok: bool)
      ensures !faulty ==> ok
    {
      ok := Reachable();
    }

    method DescribeVpc(refId: string) returns (r: VpcLookup)
      modifies this
      ensures log == old(log) + VpcAnswer(r, refId)
      ensures !faulty ==> !r.VpcLookupFailed?
    {
      var ok := Reachable();
      r := *;
      if !ok || r.VpcLookupFailed? {
        r := if ok then Ordinary else VpcLookupFailed;
      }
      log := log + VpcAnswer(r, refId);
    }
  }

  function VpcAnswer(r: VpcLookup, refId: string): seq<Evidence> {
    match r
    case VpcMissing => [NotFound(VPC, refId)]
    case NoVpc => [NotListed(VPC, refId)]
    case DefaultOne => [DefaultVpc(refId)]
    case Ordinary => [Seen(VPC, refId)]
    case VpcLookupFailed => []
  }

  // ---------- specification ----------

  function IdKey(r: CloudResource): Option<string> { Some(r.id) }

  /** Within a type, the record keys are distinct, as the primary key demands. */
  predicate UniqueIds(rs: Resources) {
    forall i, j :: 0 <= i < j < |rs| && rs[i].kind == rs[j].kind ==> rs[i].id != rs[j].id
  }

  /** The first n entries of the type are gone, each with evidence; all other types are as they were. */
  ghost predicate TakenDown(was: Resources, now: Resources, kind: ResourceType, n: nat, log: seq<Evidence>) {
    && n <= |OfType(was, kind)|
    && OfType(now, kind) == OfType(was, kind)[n..]
    && (forall j :: 0 <= j < n ==> Evident(log, kind, OfType(was, kind)[j].refId))
    && (forall k :: k != kind ==> OfType(now, k) == OfType(was, k))
  }

  /** The type comes after the stage, or is not handled at all. */
  predicate Untouched(order: seq<ResourceType>, stage: nat, kind: ResourceType)
    requires stage < |order|
  {
    forall k :: 0 <= k <= stage ==> order[k] != kind
  }

  /** No entry of the type is left, and the cloud answered for each. */
  ghost predicate GoneFor(was: Resources, now: Resources, kind: ResourceType, log: seq<Evidence>) {
    && OfType(now, kind) == []
    && forall j :: 0 <= j < |OfType(was, kind)| ==> Evident(log, kind, OfType(was, kind)[j].refId)
  }

  lemma {:induction false} GoneForGrows(was: Resources, now: Resources, kind: ResourceType, log: seq<Evidence>, more: seq<Evidence>)
    requires GoneFor(was, now, kind, log) && forall e :: e in log ==> e in more
    ensures GoneFor(was, now, kind, more)
  {
    forall j | 0 <= j < |OfType(was, kind)| ensures Evident(more, kind, OfType(was, kind)[j].refId) {
      EvidentGrows(log, more, kind, OfType(was, kind)[j].refId);
    }
  }

  /** Where a take-down stands: types before the stage are empty, later and unhandled ones untouched, of the stage's type a prefix is gone. */
  ghost predicate StoppedIn(order: seq<ResourceType>, was: Resources, now: Resources, stage: nat, n: nat, log: seq<Evidence>) {
    && stage < |order| && n <= |OfType(was, order[stage])|
    && (forall k :: 0 <= k < stage ==> GoneFor(was, now, order[k], log))
    && OfType(now, order[stage]) == OfType(was, order[stage])[n..]
    && (order[stage] != VPC ==> forall j :: 0 <= j < n ==> Evident(log, order[stage], OfType(was, order[stage])[j].refId))
    && (order[stage] == VPC && n > 0 ==> Evident(log, VPC, OfType(was, VPC)[0].refId))
    && (forall kind :: Untouched(order, stage, kind) ==> OfType(now, kind) == OfType(was, kind))
    && (forall e :: e in log ==> KindOf(e) in order[..stage + 1])
  }

  ghost predicate StoppedAt(was: Resources, now: Resources, stage: nat, n: nat, log: seq<Evidence>) {
    StoppedIn(ORDER, was, now, stage, n, log)
  }

  lemma {:induction false} OfTypeOfRemove(rs: Resources, gone: set<CloudResource>, kind: ResourceType)
    ensures OfType(Remove(rs, gone), kind) == Remove(OfType(rs, kind), gone)
  {
    if rs != [] {
      OfTypeOfRemove(rs[1..], gone, kind);
      var out := Remove(rs, gone);
      if rs[0] !in gone {
        assert out[0] == rs[0] && out[1..] == Remove(rs[1..], gone);
      }
      if rs[0].kind == kind {
        var of := OfType(rs, kind);
        assert of[0] == rs[0] && of[1..] == OfType(rs[1..], kind);
      }
    }
  }

  lemma {:induction false} UniqueAfterRemove(rs: Resources, gone: set<CloudResource>)
    requires UniqueIds(rs)
    ensures UniqueIds(Remove(rs, gone))
  {
    var out := Remove(rs, gone);
    forall i, j | 0 <= i < j < |out| && out[i].kind == out[j].kind ensures out[i].id != out[j].id {
      assert DistinctBy(rs, out[i].kind, IdKey);
      RemoveKeepsDistinctBy(rs, gone, out[i].kind, IdKey);
      assert IdKey(out[i]) != IdKey(out[j]);
    }
  }

  lemma {:induction false} OfTypeUnique(rs: Resources, kind: ResourceType)
    requires UniqueIds(rs)
    ensures forall i, j :: 0 <= i < j < |OfType(rs, kind)| ==> OfType(rs, kind)[i].id != OfType(rs, kind)[j].id
  {
    if rs != [] {
      OfTypeUnique(rs[1..], kind);
      if rs[0].kind == kind {
        var of := OfType(rs, kind);
        assert of[1..] == OfType(rs[1..], kind);
        forall j | 1 <= j < |of| ensures of[j].id != of[0].id {
          assert of[j] in OfType(rs[1..], kind);
          var k :| 0 <= k < |rs[1..]| && rs[1..][k] == of[j];
          assert rs[k + 1] == of[j];
        }
      }
    }
  }

  /** Deleting by the key of the first entry of a type deletes that entry and no other. */
  lemma {:induction false} RemoveFirstOfType(rs: Resources, kind: ResourceType)
    requires UniqueIds(rs) && OfType(rs, kind) != []
    ensures var out := Remove(rs, WithId(rs, kind, OfType(rs, kind)[0].id));
            && UniqueIds(out)
            && OfType(out, kind) == OfType(rs, kind)[1..]
            && forall k :: k != kind ==> OfType(out, k) == OfType(rs, k)
  {
    var of := OfType(rs, kind);
    var gone := WithId(rs, kind, of[0].id);
    UniqueAfterRemove(rs, gone);
    OfTypeOfRemove(rs, gone, kind);
    OfTypeUnique(rs, kind);
    assert of[0] in of && of[0] in gone;
    forall r | r in of[1..] ensures r !in gone {
      var j :| 0 <= j < |of[1..]| && of[1..][j] == r;
      assert of[j + 1] == r;
    }
    RemoveAbsent(of[1..], gone);
    forall k | k != kind ensures OfType(Remove(rs, gone), k) == OfType(rs, k) {
      OfTypeRemove(rs, gone, k);
    }
  }

  // ---------- the code ----------

  /** What one entry goes through in its loop: looked up, its dependents cleared, deleted. ok means it is evidently gone. */
  method DeleteOne(aws: AwsCloud, kind: ResourceType, refId: string, ghost was: Resources) returns (ok: bool, deleted: bool, ghost news: seq<Evidence>)
    requires kind != VPC && Registered(was, kind, refId)
    modifies aws
    ensures aws.log == old(aws.log) + news && Lawful(was, news)
    ensures forall e :: e in news ==> KindOf(e) == kind
    ensures ok ==> Evident(news, kind, refId)
    ensures !aws.faulty ==> ok
  {
    deleted, news := false, [];
    if kind != INTERNET_GATEWAY {
      var found := aws.Describe(kind, refId);
      if found.LookupFailed? {
        return false, false, [];
      }
      news := [aws.log[|aws.log| - 1]];
      if found.Missing? || (found.NoneListed? && kind == ROUTE_TABLE) {
        return true, false, news;  // nothing to delete; an empty answer leaves the loop over the tables idle
      }
    }
    ok := aws.ClearDependents(kind, refId);
    if ok {
      ok := aws.Delete(kind, refId);
      deleted := ok;
      news := news + [Tried(kind, refId)] + if ok then [Deleted(kind, refId)] else [];
    }
  }

  /**
   One of the seven loops of DeleteNetwork: it runs over a snapshot of the entries of a type and
   drops each from the registry once its delete succeeded, or at once if the lookup says it is
   not there. n counts the dropped entries.
   */
  method DeleteEach(reg: CloudRegistry, aws: AwsCloud, kind: ResourceType) returns (ok: bool, n: nat, ghost news: seq<Evidence>)
    requires UniqueIds(reg.resources) && kind != VPC
    modifies reg`resources, aws
    ensures aws.log == old(aws.log) + news && UniqueIds(reg.resources)
    ensures TakenDown(old(reg.resources), reg.resources, kind, n, news)
    ensures Lawful(old(reg.resources), news) && forall e :: e in news ==> KindOf(e) == kind
    ensures ok ==> n == |OfType(old(reg.resources), kind)|
    ensures !aws.faulty ==> ok
  {
    ghost var was, before := reg.resources, aws.log;
    var snapshot := OfType(reg.resources, kind);
    var anyDeleted := false;
    n, news := 0, [];
    while n < |snapshot|
      invariant aws.log == before + news && TakingDown(was, reg.resources, kind, n, news)
    {
      var deleted;
      ok, deleted, news := DropEntry(reg, aws, kind, snapshot[n], was, n, before, news);
      if !ok {
        return;
      }
      anyDeleted := anyDeleted || deleted;
      n := n + 1;
    }
    ok := true;
    if kind == NAT_GATEWAY && anyDeleted {
      ok := aws.WaitDeleted();
    }
  }

  /** One entry's turn. */
  method DropEntry(reg: CloudRegistry, aws: AwsCloud, kind: ResourceType, r: CloudResource, ghost was: Resources, ghost n: nat,
                   ghost before: seq<Evidence>, ghost news: seq<Evidence>)
    returns (ok: bool, deleted: bool, ghost all: seq<Evidence>)
    requires kind != VPC && aws.log == before + news && TakingDown(was, reg.resources, kind, n, news)
    requires n < |OfType(was, kind)| && r == OfType(was, kind)[n]
    modifies reg`resources, aws
    ensures aws.log == before + all
    ensures TakingDown(was, reg.resources, kind, if ok then n + 1 else n, all)
    ensures !aws.faulty ==> ok
  {
    ghost var more;
    assert r in was;
    ok, deleted, more := DeleteOne(aws, kind, r.refId, was);
    all := news + more;
    EntryAnswered(was, reg.resources, kind, n, news, more);
    if ok {
      DropNext(was, reg.resources, kind, n, all);
      reg.DeleteCloudResourceByID(kind, r.id);
    }
  }

  /** Where one of the loops stands. */
  ghost predicate TakingDown(was: Resources, now: Resources, kind: ResourceType, n: nat, news: seq<Evidence>) {
    && UniqueIds(now)
    && TakenDown(was, now, kind, n, news)
    && Lawful(was, news)
    && forall e :: e in news ==> KindOf(e) == kind
  }

  lemma {:induction false} EntryAnswered(was: Resources, now: Resources, kind: ResourceType, n: nat, news: seq<Evidence>, more: seq<Evidence>)
    requires TakingDown(was, now, kind, n, news) && n < |OfType(was, kind)|
    requires Lawful(was, more) && forall e :: e in more ==> KindOf(e) == kind
    ensures TakingDown(was, now, kind, n, news + more)
    ensures Evident(more, kind, OfType(was, kind)[n].refId) ==> Evident(news + more, kind, OfType(was, kind)[n].refId)
  {
    LawfulConcat(was, news, more);
    TakenDownGrows(was, now, kind, n, news, news + more);
    if Evident(more, kind, OfType(was, kind)[n].refId) {
      EvidentGrows(more, news + more, kind, OfType(was, kind)[n].refId);
    }
  }

  lemma {:induction false} TakenDownGrows(was: Resources, now: Resources, kind: ResourceType, n: nat, log: seq<Evidence>, more: seq<Evidence>)
    requires TakenDown(was, now, kind, n, log) && forall e :: e in log ==> e in more
    ensures TakenDown(was, now, kind, n, more)
  {
    forall j | 0 <= j < n ensures Evident(more, kind, OfType(was, kind)[j].refId) {
      EvidentGrows(log, more, kind, OfType(was, kind)[j].refId);
    }
  }

  lemma {:induction false} DropNext(was: Resources, rs: Resources, kind: ResourceType, n: nat, log: seq<Evidence>)
    requires UniqueIds(rs) && n < |OfType(was, kind)|
    requires TakenDown(was, rs, kind, n, log) && Evident(log, kind, OfType(was, kind)[n].refId)
    ensures var out := Remove(rs, WithId(rs, kind, OfType(was, kind)[n].id));
            UniqueIds(out) && TakenDown(was, out, kind, n + 1, log)
  {
    RemoveFirstOfType(rs, kind);
  }

  lemma {:induction false} EvidentGrows(log: seq<Evidence>, more: seq<Evidence>, kind: ResourceType, refId: string)
    requires (forall e :: e in log ==> e in more) && Evident(log, kind, refId)
    ensures Evident(more, kind, refId)
  {
  }

  lemma {:induction false} OrderDistinct()
    ensures |ORDER| == 8 && ORDER[7] == VPC && forall i, j :: 0 <= i < j < |ORDER| ==> ORDER[i] != ORDER[j]
  {
  }

  /** One loop finished or stopped: the stage it leaves. */
  lemma {:induction false} StageDone(order: seq<ResourceType>, was: Resources, mid: Resources, now: Resources, stage: nat, n: nat,
                                     log: seq<Evidence>, news: seq<Evidence>, log': seq<Evidence>)
    requires forall i, j :: 0 <= i < j < |order| ==> order[i] != order[j]
    requires StoppedIn(order, was, mid, stage, 0, log) && stage + 1 < |order| && order[stage] != VPC
    requires TakenDown(mid, now, order[stage], n, news) && forall e :: e in news ==> KindOf(e) == order[stage]
    requires log' == log + news
    ensures StoppedIn(order, was, now, stage, n, log')
    ensures n == |OfType(was, order[stage])| ==> StoppedIn(order, was, now, stage + 1, 0, log')
  {
    TakenDownGrows(mid, now, order[stage], n, news, log');
    forall k | 0 <= k < stage ensures GoneFor(was, now, order[k], log') {
      assert OfType(mid, order[k]) == OfType(now, order[k]);
      GoneForGrows(was, now, order[k], log, log');
    }
    assert OfType(mid, order[stage]) == OfType(was, order[stage]);
    if n == |OfType(was, order[stage])| {
      NextStage(order, was, now, stage, n, log');
    }
  }

  /** The stage's type is gone altogether: the next stage begins. */
  lemma {:induction false} NextStage(order: seq<ResourceType>, was: Resources, now: Resources, stage: nat, n: nat, log: seq<Evidence>)
    requires forall i, j :: 0 <= i < j < |order| ==> order[i] != order[j]
    requires stage + 1 < |order| && order[stage] != VPC && StoppedIn(order, was, now, stage, n, log) && n == |OfType(was, order[stage])|
    ensures StoppedIn(order, was, now, stage + 1, 0, log)
  {
    UntouchedStays(order, was, now, stage);
    assert GoneFor(was, now, order[stage], log);
  }

  lemma {:induction false} UntouchedStays(order: seq<ResourceType>, was: Resources, now: Resources, stage: nat)
    requires forall i, j :: 0 <= i < j < |order| ==> order[i] != order[j]
    requires stage + 1 < |order| && forall kind :: Untouched(order, stage, kind) ==> OfType(now, kind) == OfType(was, kind)
    ensures OfType(now, order[stage + 1]) == OfType(was, order[stage + 1])
    ensures forall kind :: Untouched(order, stage + 1, kind) ==> OfType(now, kind) == OfType(was, kind)
  {
    assert Untouched(order, stage, order[stage + 1]);
    forall kind | Untouched(order, stage + 1, kind) ensures Untouched(order, stage, kind) {
    }
  }

  lemma {:induction false} NothingDone(was: Resources)
    ensures StoppedAt(was, was, 0, 0, []) && Lawful(was, [])
  {
  }

  lemma {:induction false} FirstIsFind(rs: Resources, kind: ResourceType)
    ensures OfType(rs, kind) == [] <==> Find(rs, OfKind(kind)).None?
    ensures OfType(rs, kind) != [] ==> Find(rs, OfKind(kind)) == Some(OfType(rs, kind)[0])
  {
    if rs != [] {
      FirstIsFind(rs[1..], kind);
    }
  }

  /** The VPC is deleted or spared: exactly one of the answers that allow dropping its entry. */
  predicate OneOutcome(log: seq<Evidence>, refId: string) {
    || (Deleted(VPC, refId) in log && DefaultVpc(refId) !in log && NotListed(VPC, refId) !in log)
    || (Deleted(VPC, refId) !in log && DefaultVpc(refId) in log && NotListed(VPC, refId) !in log)
    || (Deleted(VPC, refId) !in log && DefaultVpc(refId) !in log && NotListed(VPC, refId) in log)
  }

  /** No delete of a VPC is asked for but of the one given, and only if it is neither the default one nor unlisted. */
  ghost predicate Spared(log: seq<Evidence>, refId: string) {
    forall x :: Tried(VPC, x) in log ==> x == refId && DefaultVpc(x) !in log && NotListed(VPC, x) !in log
  }

  /**
   Crash consistency: wherever it stops, the types before the stage are gone and later ones
   untouched, of the type in hand a prefix is gone, and every entry gone is evidently gone from
   the cloud by the answers of this run. Several VPC entries go together on the evidence for the
   first. Without faults it fails only if no VPC is recorded, or the recorded one is not found.
   */
  method DeleteNetwork(reg: CloudRegistry, aws: AwsCloud) returns (ok: bool, stage: nat, ghost n: nat, ghost news: seq<Evidence>)
    requires UniqueIds(reg.resources)
    modifies reg`resources, aws
    ensures aws.log == old(aws.log) + news
    ensures StoppedAt(old(reg.resources), reg.resources, stage, n, news)
    ensures Lawful(old(reg.resources), news)
    ensures ok ==> forall k :: 0 <= k < |ORDER| ==> OfType(reg.resources, ORDER[k]) == []
    ensures OfType(old(reg.resources), VPC) == [] ==> !ok && reg.resources == old(reg.resources) && news == []
    ensures OfType(old(reg.resources), VPC) != [] ==>
              && Spared(news, OfType(old(reg.resources), VPC)[0].refId)
              && (ok ==> OneOutcome(news, OfType(old(reg.resources), VPC)[0].refId))
              && (!aws.faulty ==> (ok <==> NotFound(VPC, OfType(old(reg.resources), VPC)[0].refId) !in news))
  {
    ghost var was, before := reg.resources, aws.log;
    NothingDone(was);
    FirstIsFind(was, VPC);
    stage, n, news := 0, 0, [];
    var vpc := Find(reg.resources, OfKind(VPC));
    if vpc.None? {
      return false, 0, 0, [];
    }
    while stage < 7
      invariant 0 <= stage <= 7 && n == 0 && aws.log == before + news
      invariant Walking(was, reg.resources, stage, news)
    {
      ok, n, news := DoStage(reg, aws, stage, was, before, news);
      if !ok {
        NoVpcAsked(news, vpc.value.refId);
        return;
      }
      stage, n := stage + 1, 0;
    }
    ghost var log := news;
    ghost var more;
    ok, n, more := DeleteVpc(reg, aws, vpc.value, was, log);
    news := log + more;
    OnlyVpcAnswers(log, more, vpc.value.refId);
  }

  /** One of the seven stages before the last. */
  method DoStage(reg: CloudRegistry, aws: AwsCloud, stage: nat, ghost was: Resources, ghost before: seq<Evidence>, ghost log: seq<Evidence>)
    returns (ok: bool, ghost n: nat, ghost news: seq<Evidence>)
    requires stage < 7 && aws.log == before + log && Walking(was, reg.resources, stage, log)
    modifies reg`resources, aws
    ensures aws.log == before + news
    ensures StoppedAt(was, reg.resources, stage, n, news) && Lawful(was, news) && forall e :: e in news ==> KindOf(e) != VPC
    ensures ok ==> Walking(was, reg.resources, stage + 1, news)
    ensures !aws.faulty ==> ok
  {
    ghost var mid := reg.resources;
    ghost var more;
    var count;
    assert ORDER[stage] != VPC;
    ok, count, more := DeleteEach(reg, aws, ORDER[stage]);
    n, news := count, log + more;
    OneStage(was, mid, reg.resources, stage, n, log, more);
  }

  /** Nothing asked about a VPC: what DeleteNetwork says of the VPC holds. */
  lemma {:induction false} NoVpcAsked(news: seq<Evidence>, refId: string)
    requires forall e :: e in news ==> KindOf(e) != VPC
    ensures Spared(news, refId) && NotFound(VPC, refId) !in news
  {
    assert KindOf(NotFound(VPC, refId)) == VPC;
    forall x ensures Tried(VPC, x) !in news {
      assert KindOf(Tried(VPC, x)) == VPC;
    }
  }

  /** Between two stages; nothing was asked about a VPC yet. */
  ghost predicate Walking(was: Resources, now: Resources, stage: nat, news: seq<Evidence>) {
    UniqueIds(now) && StoppedAt(was, now, stage, 0, news) && Lawful(was, news) && forall e :: e in news ==> KindOf(e) != VPC
  }

  lemma {:induction false} OneStage(was: Resources, mid: Resources, now: Resources, stage: nat, n: nat, log: seq<Evidence>, more: seq<Evidence>)
    requires stage < 7 && Walking(was, mid, stage, log) && UniqueIds(now)
    requires TakenDown(mid, now, ORDER[stage], n, more) && Lawful(mid, more) && forall e :: e in more ==> KindOf(e) == ORDER[stage]
    ensures StoppedAt(was, now, stage, n, log + more) && Lawful(was, log + more)
    ensures forall e :: e in log + more ==> KindOf(e) != VPC
    ensures n == |OfType(mid, ORDER[stage])| ==> Walking(was, now, stage + 1, log + more)
  {
    OrderDistinct();
    assert OfType(mid, ORDER[stage]) == OfType(was, ORDER[stage]);
    LawfulBefore(was, mid, more);
    LawfulConcat(was, log, more);
    StageDone(ORDER, was, mid, now, stage, n, log, more, log + more);
  }

  /** What was asked about the VPC was asked in the last stage. */
  lemma {:induction false} OnlyVpcAnswers(log: seq<Evidence>, more: seq<Evidence>, refId: string)
    requires forall e :: e in log ==> KindOf(e) != VPC
    ensures Spared(more, refId) ==> Spared(log + more, refId)
    ensures OneOutcome(more, refId) ==> OneOutcome(log + more, refId)
    ensures NotFound(VPC, refId) in log + more <==> NotFound(VPC, refId) in more
  {
    forall e: Evidence | KindOf(e) == VPC ensures e in log + more <==> e in more {
    }
    if Spared(more, refId) {
      forall x | Tried(VPC, x) in log + more ensures x == refId && DefaultVpc(x) !in log + more && NotListed(VPC, x) !in log + more {
        assert KindOf(Tried(VPC, x)) == VPC && KindOf(DefaultVpc(x)) == VPC && KindOf(NotListed(VPC, x)) == VPC;
      }
    }
    assert KindOf(Deleted(VPC, refId)) == VPC && KindOf(DefaultVpc(refId)) == VPC && KindOf(NotListed(VPC, refId)) == VPC;
    assert KindOf(NotFound(VPC, refId)) == VPC;
  }

  /** The last stage: neither the default VPC nor one that is not listed is deleted; then all VPC entries are dropped. */
  method DeleteVpc(reg: CloudRegistry, aws: AwsCloud, vpc: CloudResource, ghost was: Resources, ghost log: seq<Evidence>)
    returns (ok: bool, ghost n: nat, ghost more: seq<Evidence>)
    requires StoppedAt(was, reg.resources, 7, 0, log) && Lawful(was, log)
    requires OfType(was, VPC) != [] && vpc == OfType(was, VPC)[0]
    modifies reg`resources, aws
    ensures aws.log == old(aws.log) + more
    ensures StoppedAt(was, reg.resources, 7, n, log + more) && Lawful(was, log + more)
    ensures ok ==> forall k :: 0 <= k < |ORDER| ==> OfType(reg.resources, ORDER[k]) == []
    ensures Spared(more, vpc.refId) && (ok ==> OneOutcome(more, vpc.refId))
    ensures !aws.faulty ==> (ok <==> NotFound(VPC, vpc.refId) !in more)
  {
    n := 0;
    var found := aws.DescribeVpc(vpc.refId);
    var deleted := false;
    if found.Ordinary? {
      deleted := aws.Delete(VPC, vpc.refId);
    }
    ok := VpcGoes(found, deleted);
    more := VpcCalls(found, deleted, vpc.refId);
    assert vpc in was;
    VpcCallsAre(found, deleted, vpc.refId);
    VpcAnswered(was, reg.resources, log, found, deleted, vpc.refId);
    if !ok {
      return;
    }
    ghost var mid := reg.resources;
    RemoveWholeType(reg.resources, VPC);
    reg.DeleteCloudResource(VPC);
    n := |OfType(was, VPC)|;
    EvidentGrows(more, log + more, VPC, vpc.refId);
    VpcGone(was, mid, reg.resources, log + more);
  }

  /** What is logged for the VPC. */
  function VpcCalls(found: VpcLookup, deleted: bool, refId: string): seq<Evidence> {
    VpcAnswer(found, refId)
    + if !found.Ordinary? then [] else if deleted then [Tried(VPC, refId), Deleted(VPC, refId)] else [Tried(VPC, refId)]
  }

  /** Whether the VPC entries go. */
  predicate VpcGoes(found: VpcLookup, deleted: bool) {
    found.NoVpc? || found.DefaultOne? || (found.Ordinary? && deleted)
  }

  lemma {:induction false} VpcCallsAre(found: VpcLookup, deleted: bool, refId: string)
    ensures var calls := VpcCalls(found, deleted, refId);
            && Spared(calls, refId)
            && (VpcGoes(found, deleted) ==> OneOutcome(calls, refId) && Evident(calls, VPC, refId))
            && (NotFound(VPC, refId) in calls <==> found.VpcMissing?)
  {
    var calls := VpcCalls(found, deleted, refId);
    match found
    case Ordinary =>
      assert calls == [Seen(VPC, refId), Tried(VPC, refId)] + if deleted then [Deleted(VPC, refId)] else [];
      assert deleted ==> calls[2] == Deleted(VPC, refId);
    case VpcMissing => assert calls == [NotFound(VPC, refId)] && calls[0] in calls;
    case NoVpc => assert calls == [NotListed(VPC, refId)] && calls[0] in calls;
    case DefaultOne => assert calls == [DefaultVpc(refId)] && calls[0] in calls;
    case VpcLookupFailed => assert calls == [];
  }

  lemma {:induction false} VpcAnswered(was: Resources, now: Resources, log: seq<Evidence>, found: VpcLookup, deleted: bool, refId: string)
    requires StoppedAt(was, now, 7, 0, log) && Lawful(was, log) && Registered(was, VPC, refId)
    ensures var all := log + VpcCalls(found, deleted, refId);
            StoppedAt(was, now, 7, 0, all) && Lawful(was, all)
  {
    var more := VpcCalls(found, deleted, refId);
    LawfulVpc(was, found, deleted, refId);
    LawfulConcat(was, log, more);
    OrderDistinct();
    forall k | 0 <= k < 7 ensures GoneFor(was, now, ORDER[k], log + more) {
      GoneForGrows(was, now, ORDER[k], log, log + more);
    }
  }

  lemma {:induction false} LawfulVpc(was: Resources, found: VpcLookup, deleted: bool, refId: string)
    requires Registered(was, VPC, refId)
    ensures Lawful(was, VpcCalls(found, deleted, refId)) && forall e :: e in VpcCalls(found, deleted, refId) ==> KindOf(e) == VPC
  {
  }

  lemma {:induction false} VpcGone(was: Resources, mid: Resources, now: Resources, log: seq<Evidence>)
    requires StoppedAt(was, mid, 7, 0, log) && OfType(was, VPC) != [] && Evident(log, VPC, OfType(was, VPC)[0].refId)
    requires OfType(now, VPC) == [] && forall k :: k != VPC ==> OfType(now, k) == OfType(mid, k)
    ensures StoppedAt(was, now, 7, |OfType(was, VPC)|, log)
    ensures forall k :: 0 <= k < |ORDER| ==> OfType(now, ORDER[k]) == []
  {
  }

  /** An entry of a handled type other than a VPC that is no longer recorded is evidently gone from the cloud. */
  lemma {:induction false} GoneMeansEvident(was: Resources, now: Resources, stage: nat, n: nat, log: seq<Evidence>, r: CloudResource)
    requires StoppedAt(was, now, stage, n, log) && r in was && r !in now && r.kind != VPC
    ensures r.kind in ORDER && Evident(log, r.kind, r.refId)
  {
    assert r in OfType(was, r.kind) && r !in OfType(now, r.kind);
    var j :| 0 <= j < |OfType(was, r.kind)| && OfType(was, r.kind)[j] == r;
    assert r.kind in ORDER[..stage + 1];
    var k :| 0 <= k <= stage && ORDER[k] == r.kind;
    assert k == stage ==> forall i :: n <= i < |OfType(was, r.kind)| ==> OfType(was, r.kind)[i] == OfType(now, r.kind)[i - n];
  }

  // ---------- subnet pruning ----------

  /** The AWS pruning loop hands the reference of a stale subnet to the deletion by record key. */
  method PruneSubnets(reg: CloudRegistry, listed: set<string>)
    modifies reg`resources
    ensures reg.resources == Remove(old(reg.resources), KeyedLikeStale(old(reg.resources), listed))
  {
    ghost var was := reg.resources;
    var snapshot := OfType(reg.resources, SUBNET);
    ghost var done: set<string> := {};
    RemoveNothing(was);
    assert KeyedLike(was, done) == {};
    for i := 0 to |snapshot|
      invariant reg.resources == Remove(was, KeyedLike(was, done))
      invariant done == StaleRefs(snapshot[..i], listed)
    {
      assert snapshot[..i + 1] == snapshot[..i] + [snapshot[i]];
      if snapshot[i].refId !in listed {
        KeyedStep(was, done, snapshot[i].refId);
        reg.DeleteCloudResourceByID(SUBNET, snapshot[i].refId);
        done := done + {snapshot[i].refId};
      }
    }
    assert snapshot[..|snapshot|] == snapshot;
    SnapshotRefs(was, listed);
  }

  function StaleRefs(rs: Resources, listed: set<string>): set<string> {
    set r | r in rs && r.kind == SUBNET && r.refId !in listed :: r.refId
  }

  function KeyedLike(rs: Resources, refs: set<string>): set<CloudResource> {
    set r | r in rs && r.kind == SUBNET && r.id in refs
  }

  function KeyedLikeStale(rs: Resources, listed: set<string>): set<CloudResource> {
    KeyedLike(rs, StaleRefs(rs, listed))
  }

  lemma {:induction false} SnapshotRefs(rs: Resources, listed: set<string>)
    ensures StaleRefs(OfType(rs, SUBNET), listed) == StaleRefs(rs, listed)
  {
  }

  lemma {:induction false} KeyedStep(rs: Resources, done: set<string>, ref: string)
    ensures var left := Remove(rs, KeyedLike(rs, done));
            Remove(left, WithId(left, SUBNET, ref)) == Remove(rs, KeyedLike(rs, done + {ref}))
  {
    var left := Remove(rs, KeyedLike(rs, done));
    RemoveTwice(rs, KeyedLike(rs, done), WithId(left, SUBNET, ref));
    assert KeyedLike(rs, done) + WithId(left, SUBNET, ref) == KeyedLike(rs, done + {ref});
  }

  function StaleSubnets(rs: Resources, listed: set<string>): set<CloudResource> {
    set r | r in rs && r.kind == SUBNET && r.refId !in listed
  }

  function IdsOf(s: set<CloudResource>): set<string> { set r | r in s :: r.id }

  function RefsOf(s: set<CloudResource>): set<string> { set r | r in s :: r.refId }

  lemma {:induction false} FewerRefs(s: set<CloudResource>)
    ensures |RefsOf(s)| <= |s|
    decreases s
  {
    if s != {} {
      var r :| r in s;
      FewerRefs(s - {r});
      assert RefsOf(s) == RefsOf(s - {r}) + {r.refId};
    }
  }

  lemma {:induction false} AsManyIds(s: set<CloudResource>)
    requires forall r, q :: r in s && q in s && r.id == q.id ==> r == q
    ensures |IdsOf(s)| == |s|
    decreases s
  {
    if s != {} {
      var r :| r in s;
      AsManyIds(s - {r});
      assert IdsOf(s) == IdsOf(s - {r}) + {r.id};
    }
  }

  lemma {:induction false} SameIdSameSubnet(rs: Resources, r: CloudResource, q: CloudResource)
    requires UniqueIds(rs) && r in rs && q in rs && r.kind == q.kind && r.id == q.id
    ensures r == q
  {
  }

  lemma {:induction false} FullSubset(a: set<string>, b: set<string>)
    requires a <= b && |b| <= |a|
    ensures a == b
  {
    assert b == a + (b - a);
    assert |b| == |a| + |b - a|;
  }

  /** If the keys of the stale subnets are references of stale ones, they are all of these: there are as many keys as subnets. */
  lemma {:induction false} StaleKeysAreStaleRefs(rs: Resources, listed: set<string>)
    requires UniqueIds(rs) && forall r :: r in StaleSubnets(rs, listed) ==> r.id in StaleRefs(rs, listed)
    ensures IdsOf(StaleSubnets(rs, listed)) == StaleRefs(rs, listed)
  {
    var s := StaleSubnets(rs, listed);
    forall r, q | r in s && q in s && r.id == q.id ensures r == q {
      SameIdSameSubnet(rs, r, q);
    }
    AsManyIds(s);
    FewerRefs(s);
    assert RefsOf(s) == StaleRefs(rs, listed);
    FullSubset(IdsOf(s), RefsOf(s));
  }

  /** The keys of the dropped entries are then those of stale subnets only. */
  lemma {:induction false} KeyedIsStale(rs: Resources, listed: set<string>, r: CloudResource)
    requires UniqueIds(rs) && IdsOf(StaleSubnets(rs, listed)) == StaleRefs(rs, listed) && r in rs
    ensures r in KeyedLikeStale(rs, listed) <==> r in StaleSubnets(rs, listed)
  {
    if r.kind == SUBNET && r.id in StaleRefs(rs, listed) {
      var q :| q in StaleSubnets(rs, listed) && q.id == r.id;
      SameIdSameSubnet(rs, r, q);
    }
  }

  lemma {:induction false} PrunedDropsStale(rs: Resources, listed: set<string>)
    ensures Pruned(rs, SUBNET, listed) == Remove(rs, StaleSubnets(rs, listed))
  {
    assert Stale(rs, SUBNET, listed, Refs(rs, SUBNET)) == StaleSubnets(rs, listed);
  }

  lemma {:induction false} ExactlyStaleDropped(rs: Resources, listed: set<string>)
    requires UniqueIds(rs) && forall r :: r in StaleSubnets(rs, listed) ==> r.id in StaleRefs(rs, listed)
    ensures Remove(rs, KeyedLikeStale(rs, listed)) == Remove(rs, StaleSubnets(rs, listed))
  {
    StaleKeysAreStaleRefs(rs, listed);
    forall r | r in rs ensures r in KeyedLikeStale(rs, listed) <==> r in StaleSubnets(rs, listed) {
      KeyedIsStale(rs, listed, r);
    }
    RemoveSame(rs, KeyedLikeStale(rs, listed), StaleSubnets(rs, listed));
  }

  lemma {:induction false} KeptThoughStale(rs: Resources, listed: set<string>, r: CloudResource)
    requires r in StaleSubnets(rs, listed) && r.id !in StaleRefs(rs, listed)
    ensures Remove(rs, KeyedLikeStale(rs, listed)) != Remove(rs, StaleSubnets(rs, listed))
  {
    assert r in Remove(rs, KeyedLikeStale(rs, listed)) && r !in Remove(rs, StaleSubnets(rs, listed));
  }

  /**
   With record keys that are unique within a type, the AWS pruning drops exactly the stale subnets,
   as the Ali one does, if and only if each stale one's key happens to be the reference of a stale one.
   */
  lemma {:induction false} PruneIsExactIff(rs: Resources, listed: set<string>)
    requires UniqueIds(rs)
    ensures Remove(rs, KeyedLikeStale(rs, listed)) == Pruned(rs, SUBNET, listed)
            <==> forall r :: r in StaleSubnets(rs, listed) ==> r.id in StaleRefs(rs, listed)
  {
    PrunedDropsStale(rs, listed);
    if r :| r in StaleSubnets(rs, listed) && r.id !in StaleRefs(rs, listed) {
      KeptThoughStale(rs, listed, r);
    } else {
      ExactlyStaleDropped(rs, listed);
    }
  }

  /** A stale subnet with a key of its own stays recorded. */
  lemma {:induction false} StaleSubnetStays()
    ensures var stale := CloudResource("key", "c-z-subnet", "subnet-1", "", SUBNET, NO_TAGS, "");
            Remove([stale], KeyedLikeStale([stale], {})) == [stale]
  {
    var stale := CloudResource("key", "c-z-subnet", "subnet-1", "", SUBNET, NO_TAGS, "");
    assert "key" != "subnet-1";
    assert StaleRefs([stale], {}) == {"subnet-1"};
    RemoveAbsent([stale], KeyedLikeStale([stale], {}));
  }
}
