/**
 The bounded event channel and the per-cluster locks, as a state machine over the atomic steps of
 the senders and of any number of consumers.
 */
module EventQueue {

  /** An accepted event; the serial tells apart events of one cluster. */
  datatype Event = Event(clusterId: int, serial: nat)

  type Mutex = nat

  /** Where a consumer of the Start loop is, with the event it took and the mutexes it looked up. */
  datatype Consumer =
    | Idle
    | Received(e: Event)
    | AtLock(e: Event, m: Mutex)
    | Handling(e: Event, m: Mutex)
    | Handled(e: Event, m: Mutex, err: bool)
    | AtUnlock(e: Event, m: Mutex, err: bool, again: Mutex)
    | Stopped

  /** accepted, taken and handled are histories: events in the order of those steps. */
  datatype State = State(
    queue: seq<Event>, closed: bool, locks: map<int, Mutex>, nextMutex: Mutex, held: set<Mutex>,
    consumers: seq<Consumer>, accepted: seq<Event>, taken: seq<Event>, handled: seq<Event>)

  const CAPACITY: nat := 1024

  datatype Step =
    | Apply(e: Event) | Close | Receive(i: nat) | Finish(i: nat) | GetLock(i: nat) | Lock(i: nat)
    | Handle(i: nat, err: bool) | GetLockAgain(i: nat) | Unlock(i: nat)

  /** getLock: one mutex per id, created on first use; a negative id gets a mutex of its own each time. */
  function LookUp(s: State, id: int): (State, Mutex) {
    if id < 0 then (s.(nextMutex := s.nextMutex + 1), s.nextMutex)
    else if id in s.locks then (s, s.locks[id])
    else (s.(locks := s.locks[id := s.nextMutex], nextMutex := s.nextMutex + 1), s.nextMutex)
  }

  predicate At(s: State, i: nat) { i < |s.consumers| }

  function Moved(s: State, i: nat, c: Consumer): State
    requires At(s, i)
  {
    s.(consumers := s.consumers[i := c])
  }

  /** Sending on a closed channel panics, so Apply is a step only while the channel is open. A full channel rejects. */
  ghost predicate NextStep(s: State, s': State, step: Step) {
    match step
    case Apply(e) =>
      && !s.closed
      && s' == if e.clusterId != 0 && |s.queue| < CAPACITY then s.(queue := s.queue + [e], accepted := s.accepted + [e]) else s
    case Close => !s.closed && s' == s.(closed := true)
    case Receive(i) =>
      && At(s, i) && s.consumers[i].Idle? && s.queue != []
      && s' == Moved(s, i, Received(s.queue[0])).(queue := s.queue[1..], taken := s.taken + [s.queue[0]])
    case Finish(i) => At(s, i) && s.consumers[i].Idle? && s' == Moved(s, i, Stopped)
    case GetLock(i) =>
      && At(s, i) && s.consumers[i].Received?
      && var (t, m) := LookUp(s, s.consumers[i].e.clusterId); s' == Moved(t, i, AtLock(s.consumers[i].e, m))
    case Lock(i) =>
      && At(s, i) && s.consumers[i].AtLock? && s.consumers[i].m !in s.held
      && s' == Moved(s, i, Handling(s.consumers[i].e, s.consumers[i].m)).(held := s.held + {s.consumers[i].m})
    case Handle(i, err) =>
      && At(s, i) && s.consumers[i].Handling?
      && s' == Moved(s, i, Handled(s.consumers[i].e, s.consumers[i].m, err)).(handled := s.handled + [s.consumers[i].e])
    case GetLockAgain(i) =>
      && At(s, i) && s.consumers[i].Handled?
      && var (t, m) := LookUp(s, s.consumers[i].e.clusterId);
         s' == Moved(t, i, AtUnlock(s.consumers[i].e, s.consumers[i].m, s.consumers[i].err, m))
    case Unlock(i) =>  // unlocking a mutex that is not locked is a fatal error
      && At(s, i) && s.consumers[i].AtUnlock? && s.consumers[i].again in s.held
      && s' == Moved(s, i, if s.consumers[i].err then Stopped else Idle).(held := s.held - {s.consumers[i].again})
  }

  ghost predicate Next(s: State, s': State) { exists step :: NextStep(s, s', step) }

  ghost predicate Init(s: State) {
    && s.queue == [] && !s.closed && s.locks == map[] && s.held == {}
    && s.accepted == [] && s.taken == [] && s.handled == []
    && forall i :: 0 <= i < |s.consumers| ==> s.consumers[i] == Idle
  }

  ghost predicate IsRun(run: seq<State>) {
    |run| > 0 && Init(run[0]) && forall k :: 0 <= k < |run| - 1 ==> Next(run[k], run[k + 1])
  }

  // ---------- invariant ----------

  predicate Holds(c: Consumer) { c.Handling? || c.Handled? || c.AtUnlock? }

  predicate HasMutex(c: Consumer) { c.AtLock? || Holds(c) }

  predicate HasEvent(c: Consumer) { c.Received? || HasMutex(c) }

  /** Mutexes of different ids are different. */
  ghost predicate LocksInv(s: State) {
    && (forall id :: id in s.locks ==> s.locks[id] < s.nextMutex)
    && (forall a, b :: a in s.locks && b in s.locks && s.locks[a] == s.locks[b] ==> a == b)
  }

  /** A consumer of a positive id looked up that id's mutex, both times. */
  ghost predicate ConsumerInv(s: State, c: Consumer) {
    && (HasMutex(c) && c.e.clusterId > 0 ==> c.e.clusterId in s.locks && c.m == s.locks[c.e.clusterId])
    && (c.AtUnlock? && c.e.clusterId > 0 ==> c.again == c.m)
    && (HasMutex(c) ==> c.m < s.nextMutex)
  }

  /** Held mutexes are exactly those of consumers between Lock and Unlock, each of one consumer. */
  ghost predicate HeldInv(s: State) {
    && (forall i: nat :: At(s, i) && Holds(s.consumers[i]) ==> s.consumers[i].m in s.held)
    && (forall i: nat, j: nat :: At(s, i) && At(s, j) && i != j && Holds(s.consumers[i]) && Holds(s.consumers[j]) ==>
                         s.consumers[i].m != s.consumers[j].m)
    && (forall m :: m in s.held ==> exists i: nat :: At(s, i) && Holds(s.consumers[i]) && s.consumers[i].m == m)
  }

  /** No event has the id 0, which Apply refuses. */
  ghost predicate NonZeroIds(s: State) {
    && (forall k :: 0 <= k < |s.queue| ==> s.queue[k].clusterId != 0)
    && (forall i: nat :: At(s, i) && HasEvent(s.consumers[i]) ==> s.consumers[i].e.clusterId != 0)
  }

  /** The mutex a consumer of a negative id looks up for unlocking is known to nobody else. */
  ghost predicate PrivateInv(s: State) {
    forall i: nat :: At(s, i) && s.consumers[i].AtUnlock? && s.consumers[i].e.clusterId < 0 ==> IsPrivate(s, s.consumers[i].again)
  }

  ghost predicate IsPrivate(s: State, m: Mutex) {
    && m < s.nextMutex
    && (forall id :: id in s.locks ==> s.locks[id] != m)
    && (forall j: nat :: At(s, j) && HasMutex(s.consumers[j]) ==> s.consumers[j].m != m)
  }

  /** The event a consumer has taken and not yet handled. */
  function InHand(c: Consumer): seq<Event> {
    if c.Received? || c.AtLock? || c.Handling? then [c.e] else []
  }

  function One(c: Consumer, x: Event): nat { if InHand(c) == [x] then 1 else 0 }

  /** How many consumers have the event in hand. */
  function InFlight(cs: seq<Consumer>, x: Event): nat {
    if cs == [] then 0 else InFlight(cs[..|cs| - 1], x) + One(cs[|cs| - 1], x)
  }

  ghost predicate QueueInv(s: State) {
    && |s.queue| <= CAPACITY
    && s.accepted == s.taken + s.queue
    && forall x :: multiset(s.taken)[x] == multiset(s.handled)[x] + InFlight(s.consumers, x)
  }

  ghost predicate Inv(s: State) {
    && LocksInv(s) && AllConsumers(s) && HeldInv(s) && QueueInv(s) && NonZeroIds(s) && PrivateInv(s)
  }

  lemma {:induction false} InFlightUpdate(cs: seq<Consumer>, i: nat, c: Consumer, x: Event)
    requires i < |cs|
    ensures InFlight(cs[i := c], x) + One(cs[i], x) == InFlight(cs, x) + One(c, x)
  {
    var n := |cs| - 1;
    if i == n {
      assert cs[i := c][..n] == cs[..n];
    } else {
      assert cs[i := c][..n] == cs[..n][i := c] && cs[..n][i] == cs[i];
      InFlightUpdate(cs[..n], i, c, x);
    }
  }

  lemma {:induction false} InFlightIdle(cs: seq<Consumer>, x: Event)
    requires forall i :: 0 <= i < |cs| ==> cs[i] == Idle
    ensures InFlight(cs, x) == 0
  {
    if cs != [] {
      InFlightIdle(cs[..|cs| - 1], x);
    }
  }

  lemma {:induction false} InitInv(s: State)
    requires Init(s)
    ensures Inv(s)
  {
    forall x ensures InFlight(s.consumers, x) == 0 {
      InFlightIdle(s.consumers, x);
    }
  }

  lemma {:induction false} ReceiveKeepsQueue(s: State, s': State, i: nat)
    requires QueueInv(s) && NextStep(s, s', Receive(i))
    ensures QueueInv(s')
  {
    var e := s.queue[0];
    assert s.queue == [e] + s.queue[1..];
    forall x ensures multiset(s'.taken)[x] == multiset(s'.handled)[x] + InFlight(s'.consumers, x) {
      InFlightUpdate(s.consumers, i, Received(e), x);
    }
  }

  lemma {:induction false} HandleKeepsQueue(s: State, s': State, i: nat, err: bool)
    requires QueueInv(s) && NextStep(s, s', Handle(i, err))
    ensures QueueInv(s')
  {
    var c := s.consumers[i];
    forall x ensures multiset(s'.taken)[x] == multiset(s'.handled)[x] + InFlight(s'.consumers, x) {
      InFlightUpdate(s.consumers, i, Handled(c.e, c.m, err), x);
    }
  }

  /** A step that leaves the queue and the histories, and the consumer's event in hand, as they are. */
  lemma {:induction false} QuietKeepsQueue(s: State, s': State, i: nat)
    requires QueueInv(s) && At(s, i) && |s'.consumers| == |s.consumers|
    requires s'.consumers == s.consumers[i := s'.consumers[i]] && InHand(s'.consumers[i]) == InHand(s.consumers[i])
    requires s'.queue == s.queue && s'.accepted == s.accepted && s'.taken == s.taken && s'.handled == s.handled
    ensures QueueInv(s')
  {
    forall x ensures InFlight(s'.consumers, x) == InFlight(s.consumers, x) {
      InFlightUpdate(s.consumers, i, s'.consumers[i], x);
    }
  }

  lemma {:induction false} LockingIsQuiet(s: State, s': State, step: Step)
    requires QueueInv(s) && NextStep(s, s', step) && (step.GetLock? || step.Lock?)
    ensures QueueInv(s')
  {
    QuietKeepsQueue(s, s', step.i);
  }

  lemma {:induction false} UnlockingIsQuiet(s: State, s': State, step: Step)
    requires QueueInv(s) && NextStep(s, s', step) && (step.GetLockAgain? || step.Unlock? || step.Finish?)
    ensures QueueInv(s')
  {
    QuietKeepsQueue(s, s', step.i);
  }

  lemma {:induction false} SendingKeepsQueue(s: State, s': State, step: Step)
    requires QueueInv(s) && NextStep(s, s', step) && (step.Apply? || step.Close?)
    ensures QueueInv(s')
  {
  }

  lemma {:induction false} QueueStep(s: State, s': State, step: Step)
    requires QueueInv(s) && NextStep(s, s', step)
    ensures QueueInv(s')
  {
    if step.Receive? {
      ReceiveKeepsQueue(s, s', step.i);
    } else if step.Handle? {
      HandleKeepsQueue(s, s', step.i, step.err);
    } else if step.Apply? || step.Close? {
      SendingKeepsQueue(s, s', step);
    } else if step.GetLock? || step.Lock? {
      LockingIsQuiet(s, s', step);
    } else {
      UnlockingIsQuiet(s, s', step);
    }
  }

  lemma {:induction false} LocksStep(s: State, s': State, step: Step)
    requires LocksInv(s) && NextStep(s, s', step)
    ensures LocksInv(s') && s.nextMutex <= s'.nextMutex
    ensures forall id :: id in s.locks ==> id in s'.locks && s'.locks[id] == s.locks[id]
  {
  }

  lemma {:induction false} ConsumerStep(s: State, s': State, step: Step, j: nat)
    requires LocksInv(s) && NextStep(s, s', step) && At(s', j)
    requires forall i: nat :: At(s, i) ==> ConsumerInv(s, s.consumers[i])
    ensures ConsumerInv(s', s'.consumers[j])
  {
    LocksStep(s, s', step);
    assert ConsumerInv(s, s.consumers[j]);
  }

  ghost predicate AllConsumers(s: State) {
    forall i: nat :: At(s, i) ==> ConsumerInv(s, s.consumers[i])
  }

  /** Who held a mutex in s still does in s', unless the step is the unlocking of it. */
  lemma {:induction false} StillHolds(s: State, s': State, step: Step, i: nat)
    requires NextStep(s, s', step)
    requires At(s, i) && Holds(s.consumers[i]) && step != Unlock(i)
    ensures At(s', i) && Holds(s'.consumers[i]) && s'.consumers[i].m == s.consumers[i].m
  {
  }

  /** Who holds a mutex in s' did in s, or has just locked it. */
  lemma {:induction false} HeldBefore(s: State, s': State, step: Step, i: nat)
    requires NextStep(s, s', step) && At(s', i) && Holds(s'.consumers[i])
    ensures At(s, i) && HasMutex(s.consumers[i]) && s.consumers[i].m == s'.consumers[i].m
    ensures (Holds(s.consumers[i]) && step != Unlock(i)) || step == Lock(i)
  {
  }

  lemma {:induction false} HeldSets(s: State, s': State, step: Step)
    requires AllConsumers(s) && NonZeroIds(s) && PrivateInv(s) && HeldInv(s) && NextStep(s, s', step)
    ensures step.Lock? ==> s.consumers[step.i].m !in s.held && s'.held == s.held + {s.consumers[step.i].m}
    ensures step.Unlock? ==> s'.held == s.held - {s.consumers[step.i].m}
    ensures !step.Lock? && !step.Unlock? ==> s'.held == s.held
  {
  }

  lemma {:induction false} NobodyHolds(s: State, m: Mutex)
    requires HeldInv(s) && IsPrivate(s, m)
    ensures m !in s.held
  {
  }

  lemma {:induction false} HeldStep(s: State, s': State, step: Step)
    requires HeldInv(s) && AllConsumers(s) && NonZeroIds(s) && PrivateInv(s) && NextStep(s, s', step)
    ensures HeldInv(s')
  {
    HeldSets(s, s', step);
    forall i: nat | At(s', i) && Holds(s'.consumers[i]) ensures s'.consumers[i].m in s'.held {
      HeldBefore(s, s', step, i);
      if step.Unlock? {
        HolderUnlocking(s, s', step, i);
      }
    }
    forall i: nat, j: nat | At(s', i) && At(s', j) && i != j && Holds(s'.consumers[i]) && Holds(s'.consumers[j])
      ensures s'.consumers[i].m != s'.consumers[j].m
    {
      HeldBefore(s, s', step, i);
      HeldBefore(s, s', step, j);
    }
    forall m | m in s'.held ensures exists i: nat :: At(s', i) && Holds(s'.consumers[i]) && s'.consumers[i].m == m {
      if m in s.held {
        var i: nat :| At(s, i) && Holds(s.consumers[i]) && s.consumers[i].m == m;
        StillHolds(s, s', step, i);
      } else {
        assert At(s', step.i) && Holds(s'.consumers[step.i]) && s'.consumers[step.i].m == m;
      }
    }
  }

  /** While one consumer unlocks, every other holder holds another mutex. */
  lemma {:induction false} HolderUnlocking(s: State, s': State, step: Step, i: nat)
    requires HeldInv(s) && NextStep(s, s', step) && step.Unlock? && At(s', i) && Holds(s'.consumers[i])
    ensures s.consumers[i].m != s.consumers[step.i].m
  {
  }

  lemma {:induction false} NonZeroIdsStep(s: State, s': State, step: Step)
    requires NonZeroIds(s) && NextStep(s, s', step)
    ensures NonZeroIds(s')
  {
  }

  /** A private mutex stays private: fresh mutexes are new, and looked-up ones are others. */
  lemma {:induction false} StaysPrivate(s: State, s': State, step: Step, m: Mutex)
    requires LocksInv(s) && AllConsumers(s) && IsPrivate(s, m) && NextStep(s, s', step)
    ensures IsPrivate(s', m)
  {
    LocksStep(s, s', step);
  }

  lemma {:induction false} FreshIsPrivate(s: State, s': State, i: nat)
    requires LocksInv(s) && AllConsumers(s) && NextStep(s, s', GetLockAgain(i)) && s.consumers[i].e.clusterId < 0
    ensures IsPrivate(s', s'.consumers[i].again)
  {
  }

  lemma {:induction false} PrivateStep(s: State, s': State, step: Step)
    requires LocksInv(s) && AllConsumers(s) && PrivateInv(s) && NextStep(s, s', step)
    ensures PrivateInv(s')
  {
    forall i: nat | At(s', i) && s'.consumers[i].AtUnlock? && s'.consumers[i].e.clusterId < 0
      ensures IsPrivate(s', s'.consumers[i].again)
    {
      if step == GetLockAgain(i) {
        FreshIsPrivate(s, s', i);
      } else {
        AlreadyAtUnlock(s, s', step, i);
        StaysPrivate(s, s', step, s.consumers[i].again);
      }
    }
  }

  lemma {:induction false} AlreadyAtUnlock(s: State, s': State, step: Step, i: nat)
    requires NextStep(s, s', step) && step != GetLockAgain(i) && At(s', i) && s'.consumers[i].AtUnlock?
    ensures At(s, i) && s.consumers[i] == s'.consumers[i]
  {
  }

  lemma {:induction false} InvStep(s: State, s': State, step: Step)
    requires Inv(s) && NextStep(s, s', step)
    ensures Inv(s')
  {
    LocksStep(s, s', step);
    forall j: nat | At(s', j) ensures ConsumerInv(s', s'.consumers[j]) {
      ConsumerStep(s, s', step, j);
    }
    HeldStep(s, s', step);
    QueueStep(s, s', step);
    NonZeroIdsStep(s, s', step);
    PrivateStep(s, s', step);
  }

  lemma {:induction false} RunInv(run: seq<State>, k: nat)
    requires IsRun(run) && k < |run|
    ensures Inv(run[k])
  {
    if k == 0 {
      InitInv(run[0]);
    } else {
      RunInv(run, k - 1);
      var step :| NextStep(run[k - 1], run[k - 1 + 1], step);
      InvStep(run[k - 1], run[k], step);
    }
  }

  // ---------- guarantees ----------

  predicate UnlocksItsOwn(s: State, c: Consumer)
    requires c.AtUnlock?
  {
    if c.e.clusterId > 0 then c.again == c.m && c.m in s.held else c.again !in s.held
  }

  predicate HoldsIt(c: Consumer, m: Mutex) { Holds(c) && c.m == m }

  /** In every reachable state at most one handler per positive cluster id runs. */
  lemma {:induction false} MutualExclusion(run: seq<State>, k: nat, i: nat, j: nat)
    requires IsRun(run) && k < |run| && At(run[k], i) && At(run[k], j) && i != j
    requires run[k].consumers[i].Handling? && run[k].consumers[j].Handling? && run[k].consumers[i].e.clusterId > 0
    ensures run[k].consumers[i].e.clusterId != run[k].consumers[j].e.clusterId
  {
    RunInv(run, k);
    assert ConsumerInv(run[k], run[k].consumers[i]) && ConsumerInv(run[k], run[k].consumers[j]);
  }

  lemma {:induction false} MutexKeptByStep(run: seq<State>, k: nat, id: int)
    requires IsRun(run) && k + 1 < |run| && id in run[k].locks
    ensures id in run[k + 1].locks && run[k + 1].locks[id] == run[k].locks[id]
  {
  }

  /** An id keeps its mutex for ever. */
  lemma {:induction false} SameMutexForever(run: seq<State>, a: nat, b: nat, id: int)
    requires IsRun(run) && a <= b < |run| && id in run[a].locks
    ensures id in run[b].locks && run[b].locks[id] == run[a].locks[id]
  {
    if a < b {
      SameMutexForever(run, a, b - 1, id);
      MutexKeptByStep(run, b - 1, id);
    }
  }

  /**
   For a positive id the unlock meets the mutex the consumer locked; for a negative one it meets
   a mutex that is not locked, which is fatal. A stopped consumer, also one stopped by a handler
   error, holds none: every held mutex belongs to a consumer on its way to release it.
   */
  lemma {:induction false} LocksAreReleased(run: seq<State>, k: nat)
    requires IsRun(run) && k < |run|
    ensures forall i: nat :: At(run[k], i) && run[k].consumers[i].AtUnlock? ==> UnlocksItsOwn(run[k], run[k].consumers[i])
    ensures forall m :: m in run[k].held ==> exists i: nat :: At(run[k], i) && HoldsIt(run[k].consumers[i], m)
  {
    RunInv(run, k);
    var s := run[k];
    forall i: nat | At(s, i) && s.consumers[i].AtUnlock? ensures UnlocksItsOwn(s, s.consumers[i]) {
      assert ConsumerInv(s, s.consumers[i]);
      if s.consumers[i].e.clusterId < 0 {
        NobodyHolds(s, s.consumers[i].again);
      }
    }
    forall m | m in s.held ensures exists i: nat :: At(s, i) && HoldsIt(s.consumers[i], m) {
      var i: nat :| At(s, i) && Holds(s.consumers[i]) && s.consumers[i].m == m;
      assert HoldsIt(s.consumers[i], m);
    }
  }

  /** A consumer that holds the mutex of a positive id can always take its next step, up to the release. */
  lemma {:induction false} HolderCanStep(run: seq<State>, k: nat, i: nat)
    requires IsRun(run) && k < |run| && At(run[k], i) && Holds(run[k].consumers[i])
    requires run[k].consumers[i].e.clusterId > 0
    ensures exists s', step :: NextStep(run[k], s', step) && step in {Handle(i, false), GetLockAgain(i), Unlock(i)}
  {
    LocksAreReleased(run, k);
    var s := run[k];
    var c := s.consumers[i];
    match c
    case Handling(e, m) =>
      assert NextStep(s, Moved(s, i, Handled(e, m, false)).(handled := s.handled + [e]), Handle(i, false));
    case Handled(e, m, err) =>
      var (t, m') := LookUp(s, e.clusterId);
      assert NextStep(s, Moved(t, i, AtUnlock(e, m, err, m')), GetLockAgain(i));
    case AtUnlock(e, m, err, again) =>
      assert NextStep(s, Moved(s, i, if err then Stopped else Idle).(held := s.held - {again}), Unlock(i));
  }

  /** Events are taken in the order they were accepted, each once, none is lost, and the queue stays within its capacity. */
  lemma {:induction false} EventsConserved(run: seq<State>, k: nat)
    requires IsRun(run) && k < |run|
    ensures run[k].accepted == run[k].taken + run[k].queue && |run[k].queue| <= CAPACITY
    ensures forall x :: multiset(run[k].accepted)[x]
                        == multiset(run[k].handled)[x] + InFlight(run[k].consumers, x) + multiset(run[k].queue)[x]
  {
    RunInv(run, k);
    assert multiset(run[k].accepted) == multiset(run[k].taken) + multiset(run[k].queue);
  }

  lemma {:induction false} SameConsumers(s: State, s': State, step: Step)
    requires NextStep(s, s', step)
    ensures |s'.consumers| == |s.consumers|
  {
  }

  ghost predicate Fifo(s: State) {
    |s.consumers| == 1 && s.taken == s.handled + InHand(s.consumers[0])
  }

  lemma {:induction false} FifoStep(s: State, s': State, step: Step)
    requires Fifo(s) && NextStep(s, s', step)
    ensures Fifo(s')
  {
    SameConsumers(s, s', step);
  }

  lemma {:induction false} FifoRun(run: seq<State>, k: nat)
    requires IsRun(run) && k < |run| && |run[0].consumers| == 1
    ensures Fifo(run[k])
  {
    if k > 0 {
      FifoRun(run, k - 1);
      var step :| NextStep(run[k - 1], run[k - 1 + 1], step);
      FifoStep(run[k - 1], run[k], step);
    }
  }

  /** With a single consumer, events are also handled in the order they were accepted. */
  lemma {:induction false} SingleConsumerIsFifo(run: seq<State>, k: nat)
    requires IsRun(run) && k < |run| && |run[0].consumers| == 1
    ensures |run[k].consumers| == 1
    ensures run[k].accepted == run[k].handled + InHand(run[k].consumers[0]) + run[k].queue
  {
    FifoRun(run, k);
    RunInv(run, k);
  }

  // ---------- going on ----------

  /** Consumer i stopped in step j of the run: it saw the end while idle, or its handler had failed. */
  ghost predicate StoppedBy(run: seq<State>, i: nat, j: nat) {
    && j + 1 < |run| && At(run[j], i) && At(run[j + 1], i) && run[j + 1].consumers[i].Stopped?
    && (run[j].consumers[i].Idle? || (run[j].consumers[i].AtUnlock? && run[j].consumers[i].err))
  }

  lemma {:induction false} StopStep(s: State, s': State, step: Step, i: nat)
    requires NextStep(s, s', step) && At(s', i) && s'.consumers[i].Stopped?
    ensures At(s, i)
    ensures s.consumers[i].Stopped? || s.consumers[i].Idle? || (s.consumers[i].AtUnlock? && s.consumers[i].err)
  {
    SameConsumers(s, s', step);
  }

  /** In every run a consumer that is stopped stopped once while idle, or after an event whose handler failed. */
  lemma {:induction false} StopsForAReason(run: seq<State>, k: nat, i: nat) returns (j: nat)
    requires IsRun(run) && k < |run| && At(run[k], i) && run[k].consumers[i].Stopped?
    ensures j < k && StoppedBy(run, i, j)
  {
    assert k > 0;
    j := k - 1;
    var step :| NextStep(run[j], run[j + 1], step);
    StopStep(run[j], run[j + 1], step, i);
    if run[j].consumers[i].Stopped? {
      j := StopsForAReason(run, j, i);
    }
  }

  lemma {:induction false} ErrorStep(s: State, s': State, step: Step, i: nat)
    requires NextStep(s, s', step) && At(s, i)
    ensures At(s', i)
    ensures s.consumers[i].Stopped? ==> s'.consumers[i].Stopped?
    ensures s.consumers[i].AtUnlock? && s.consumers[i].err ==> s'.consumers[i] == s.consumers[i] || s'.consumers[i].Stopped?
  {
  }

  /** A consumer whose handler failed takes nothing more: it unlocks and stays stopped. */
  lemma {:induction false} ErrorStopsForGood(run: seq<State>, a: nat, b: nat, i: nat)
    requires IsRun(run) && a <= b < |run| && At(run[a], i) && run[a].consumers[i].AtUnlock? && run[a].consumers[i].err
    ensures At(run[b], i) && (run[b].consumers[i] == run[a].consumers[i] || run[b].consumers[i].Stopped?)
  {
    if a < b {
      ErrorStopsForGood(run, a, b - 1, i);
      var step :| NextStep(run[b - 1], run[b - 1 + 1], step);
      ErrorStep(run[b - 1], run[b], step, i);
    }
  }

  /** After an event handled without error the consumer can unlock and take the next event of the queue. */
  lemma {:induction false} GoesOn(run: seq<State>, k: nat, i: nat) returns (unlocked: State, next: State)
    requires IsRun(run) && k < |run| && At(run[k], i) && run[k].queue != []
    requires run[k].consumers[i].AtUnlock? && run[k].consumers[i].e.clusterId > 0 && !run[k].consumers[i].err
    ensures NextStep(run[k], unlocked, Unlock(i)) && NextStep(unlocked, next, Receive(i))
    ensures next.consumers[i] == Received(run[k].queue[0]) && next.queue == run[k].queue[1..]
  {
    LocksAreReleased(run, k);
    var s := run[k];
    unlocked := Moved(s, i, Idle).(held := s.held - {s.consumers[i].again});
    next := Moved(unlocked, i, Received(s.queue[0])).(queue := s.queue[1..], taken := s.taken + [s.queue[0]]);
  }

  /** No consumer is between Lock and Unlock for the id. */
  predicate Free(s: State, id: int) { id in s.locks ==> s.locks[id] !in s.held }

  lemma {:induction false} NotHeldYet(s: State, id: int)
    requires Inv(s) && id > 0 && Free(s, id)
    ensures LookUp(s, id).1 !in s.held
  {
    forall i: nat | At(s, i) && Holds(s.consumers[i]) ensures s.consumers[i].m < s.nextMutex {
      assert ConsumerInv(s, s.consumers[i]);
    }
  }

  /** The first half of a round: the event is taken and its mutex locked. */
  lemma {:induction false} TakeAndLock(s: State, i: nat) returns (s1: State, s2: State, s3: State)
    requires Inv(s) && At(s, i) && s.consumers[i].Idle?
    requires s.queue != [] && s.queue[0].clusterId > 0 && Free(s, s.queue[0].clusterId)
    ensures NextStep(s, s1, Receive(i)) && NextStep(s1, s2, GetLock(i)) && NextStep(s2, s3, Lock(i))
    ensures var (t, m) := LookUp(s, s.queue[0].clusterId);
            && m !in s.held && s3.locks == t.locks && s3.held == s.held + {m} && s3.queue == s.queue[1..] && s3.handled == s.handled
            && s3.consumers == s.consumers[i := Handling(s.queue[0], m)]
            && LookUp(s3, s.queue[0].clusterId) == (s3, m)
  {
    var e := s.queue[0];
    NotHeldYet(s, e.clusterId);
    s1 := Moved(s, i, Received(e)).(queue := s.queue[1..], taken := s.taken + [e]);
    var (t, m) := LookUp(s1, e.clusterId);
    s2 := Moved(t, i, AtLock(e, m));
    s3 := Moved(s2, i, Handling(e, m)).(held := s2.held + {m});
  }

  /** The second half: handled, and the mutex released. */
  lemma {:induction false} HandleAndRelease(s: State, i: nat, err: bool) returns (s1: State, s2: State, s3: State)
    requires At(s, i) && s.consumers[i].Handling? && s.consumers[i].m in s.held
    requires LookUp(s, s.consumers[i].e.clusterId) == (s, s.consumers[i].m) && s.consumers[i].e.clusterId > 0
    ensures NextStep(s, s1, Handle(i, err)) && NextStep(s1, s2, GetLockAgain(i)) && NextStep(s2, s3, Unlock(i))
    ensures s3.queue == s.queue && s3.handled == s.handled + [s.consumers[i].e] && s3.held == s.held - {s.consumers[i].m}
    ensures s3.consumers == s.consumers[i := if err then Stopped else Idle]
  {
    var e, m := s.consumers[i].e, s.consumers[i].m;
    s1 := Moved(s, i, Handled(e, m, err)).(handled := s.handled + [e]);
    s2 := Moved(s1, i, AtUnlock(e, m, err, m));
    s3 := Moved(s2, i, if err then Stopped else Idle).(held := s2.held - {m});
  }

  /**
   A whole round: an idle consumer can take the first event of the queue, if it has a positive id
   that nobody works on, and handle it. After success it is idle again, after an error stopped;
   its mutex is free again either way, and nobody else was touched.
   */
  lemma {:induction false} OneRound(run: seq<State>, k: nat, i: nat, err: bool) returns (round: seq<State>)
    requires IsRun(run) && k < |run| && At(run[k], i) && run[k].consumers[i].Idle?
    requires run[k].queue != [] && run[k].queue[0].clusterId > 0 && Free(run[k], run[k].queue[0].clusterId)
    ensures |round| == 7 && round[0] == run[k] && forall j :: 0 <= j < 6 ==> Next(round[j], round[j + 1])
    ensures var s, last := run[k], round[6];
            && last.queue == s.queue[1..] && last.handled == s.handled + [s.queue[0]] && last.held == s.held
            && last.consumers == s.consumers[i := if err then Stopped else Idle]
  {
    RunInv(run, k);
    var s1, s2, s3 := TakeAndLock(run[k], i);
    var s4, s5, s6 := HandleAndRelease(s3, i, err);
    Steps(run[k], s1, Receive(i));
    Steps(s1, s2, GetLock(i));
    Steps(s2, s3, Lock(i));
    Steps(s3, s4, Handle(i, err));
    Steps(s4, s5, GetLockAgain(i));
    Steps(s5, s6, Unlock(i));
    round := [run[k], s1, s2, s3, s4, s5, s6];
  }

  lemma {:induction false} Steps(s: State, s': State, step: Step)
    requires NextStep(s, s', step)
    ensures Next(s, s')
  {
  }
}
