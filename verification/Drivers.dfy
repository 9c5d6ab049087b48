/** The manager's driver registry and the reference counts of the processes in it.

    A run interleaves launch tasks with the releases and drops of session guards.
    The `drivers` mutex, the weak map entries, the strong counts and the program
    counter of every launch are explicit, and one step is one atomic action of the
    program: a lock acquisition, a look-up under the lock, one count update.
    A strong reference lives at a named place (a `Holder`): a local variable of a
    launch, a guard's slot, or the local variable into which `release` took it. */
module Drivers {
  import opened Wrappers

  datatype Browser = Chrome | Firefox | Edge | Safari
  datatype DriverKey = DriverKey(browser: Browser, version: string, host: string)
  type DriverId = nat
  type TaskId = nat
  type SessionId = nat
  type OpId = nat

  datatype Holder =
    | Lease(task: TaskId)                    // what `ensure_driver` returned to this launch
    | Own(task: TaskId)                      // the process this launch spawned, not published yet
    | Guard(session: SessionId)              // `SessionGuard::driver`
    | Taken(session: SessionId, op: OpId)    // the local of a `release` after `take()`

  /** Who may still reach the process: shared references, one owner by value
      (after `Arc::into_inner`), or nobody, because its `Drop` has run. */
  datatype Fate = Shared | OwnedBy(holder: Holder) | Ended

  /** `hasChild`: the child handle was not taken and killed yet; a child may still exit by itself. */
  datatype Process = Process(key: DriverKey, strong: nat, published: bool, hasChild: bool, fate: Fate)

  /** How waiting for a killed child goes. */
  datatype Wait = Done | WaitFailed | WaitCancelled

  datatype LaunchPc =
    | FastWait | FastLocked                  // the look-up in `ensure_driver`
    | Fetching                               // resolving and downloading the binary
    | CheckWait | CheckLocked                // the first look-up in `spawn_or_reuse`
    | Spawning(id: DriverId)
    | PublishWait | PublishLocked | PublishMissed
    | LostRace                               // reuses another process, its own not dropped yet
    | Leased                                 // `ensure_driver` has returned
    | Finished

  datatype Task = Task(key: DriverKey, pc: LaunchPc)

  datatype Event =
    | Ready(id: DriverId)
    | Reused(task: TaskId, id: DriverId)
    | Killed(id: DriverId)                   // the child handle was taken and killed
    | DriverShutdown(id: DriverId)

  datatype State = State(
    drivers: map<DriverKey, DriverId>,       // weak entries
    lock: Option<TaskId>,
    nextId: DriverId,
    procs: map<DriverId, Process>,
    refs: map<Holder, DriverId>,
    tasks: map<TaskId, Task>,
    trace: seq<Event>)

  const INIT := State(map[], None, 0, map[], map[], map[], [])

  datatype Step =
    | BeginLaunch(task: TaskId, key: DriverKey, manual: bool)
    | Lock(task: TaskId)
    | LookUp(task: TaskId)
    | Fetched(task: TaskId, ok: bool)
    | Spawned(task: TaskId, ok: bool)
    | Publish(task: TaskId)
    | DropOwn(task: TaskId)
    | Abandon(task: TaskId)                  // an error after the lease, or a cancelled launch
    | ToGuard(task: TaskId, session: SessionId)
    | Take(session: SessionId, op: OpId)
    | IntoInner(session: SessionId, op: OpId)
    | KillOwned(id: DriverId)
    | DropOwned(id: DriverId)
    | DropTaken(session: SessionId, op: OpId)
    | DropGuard(session: SessionId)

  // ----- reference counting -----

  ghost function HoldersOf(refs: map<Holder, DriverId>, p: DriverId): set<Holder> {
    set h | h in refs && refs[h] == p
  }

  function AddRef(s: State, h: Holder, p: DriverId): State
    requires p in s.procs
  {
    s.(refs := s.refs[h := p], procs := s.procs[p := s.procs[p].(strong := s.procs[p].strong + 1)])
  }

  function MoveRef(s: State, from: Holder, to: Holder): State
    requires from in s.refs
  {
    s.(refs := (s.refs - {from})[to := s.refs[from]])
  }

  /** `ManagedDriverProcess::drop`: takes the child if it is still there, then announces the end. */
  function RunDrop(s: State, p: DriverId): State
    requires p in s.procs
  {
    s.(procs := s.procs[p := s.procs[p].(hasChild := false, fate := Ended)],
       trace := s.trace + (if s.procs[p].hasChild then [Killed(p)] else []) + [DriverShutdown(p)])
  }

  function Decrement(s: State, h: Holder): State
    requires h in s.refs && s.refs[h] in s.procs && s.procs[s.refs[h]].strong > 0
  {
    var p := s.refs[h];
    s.(refs := s.refs - {h}, procs := s.procs[p := s.procs[p].(strong := s.procs[p].strong - 1)])
  }

  /** Dropping an `Arc`: the last one runs the process's `Drop`. */
  function DropRef(s: State, h: Holder): State
    requires h in s.refs && s.refs[h] in s.procs && s.procs[s.refs[h]].strong > 0
  {
    var p := s.refs[h];
    var s' := Decrement(s, h);
    if s'.procs[p].strong == 0 then RunDrop(s', p) else s'
  }

  /** `Arc::into_inner`: the last one gets the process by value, any other just drops its reference. */
  function Unwrap(s: State, h: Holder): State
    requires h in s.refs && s.refs[h] in s.procs && s.procs[s.refs[h]].strong > 0
  {
    var p := s.refs[h];
    var s' := Decrement(s, h);
    if s'.procs[p].strong == 0 then s'.(procs := s'.procs[p := s'.procs[p].(fate := OwnedBy(h))]) else s'
  }

  predicate Droppable(s: State, h: Holder) {
    h in s.refs && s.refs[h] in s.procs && s.procs[s.refs[h]].strong > 0
  }

  // ----- steps -----

  /** The process a look-up finds: the weak entry upgrades exactly while a strong reference exists. */
  function Upgrade(s: State, key: DriverKey): Option<DriverId> {
    if key in s.drivers && s.drivers[key] in s.procs && s.procs[s.drivers[key]].strong > 0
    then Some(s.drivers[key]) else None
  }

  function At(s: State, t: TaskId, pc: LaunchPc): State
    requires t in s.tasks
  {
    s.(tasks := s.tasks[t := s.tasks[t].(pc := pc)])
  }

  /** A launch drops a reference and goes on. */
  function DropAt(s: State, h: Holder, t: TaskId, pc: LaunchPc): State
    requires Droppable(s, h) && t in s.tasks
  {
    At(DropRef(s, h), t, pc)
  }

  function LockStep(s: State, t: TaskId): Option<State> {
    if t !in s.tasks || s.lock.Some? then None
    else match s.tasks[t].pc
      case FastWait => Some(At(s, t, FastLocked).(lock := Some(t)))
      case CheckWait => Some(At(s, t, CheckLocked).(lock := Some(t)))
      case PublishWait => Some(At(s, t, PublishLocked).(lock := Some(t)))
      case _ => None
  }

  /** A hit takes a reference and leaves the critical section. */
  function Hit(s: State, t: TaskId, p: DriverId, pc: LaunchPc): State
    requires t in s.tasks && p in s.procs
  {
    AddRef(At(s, t, pc), Lease(t), p).(lock := None, trace := s.trace + [Reused(t, p)])
  }

  function LookUpStep(s: State, t: TaskId): Option<State> {
    if t !in s.tasks then None
    else
      var found := Upgrade(s, s.tasks[t].key);
      match s.tasks[t].pc
      case FastLocked => Some(if found.Some? then Hit(s, t, found.value, Leased)
                              else At(s, t, Fetching).(lock := None))
      case CheckLocked => Some(if found.Some? then Hit(s, t, found.value, Leased)
                               else At(s, t, Spawning(s.nextId)).(lock := None, nextId := s.nextId + 1))
      case PublishLocked => Some(if found.Some? then Hit(s, t, found.value, LostRace)
                                 else At(s, t, PublishMissed))
      case _ => None
  }

  function SpawnedStep(s: State, t: TaskId, ok: bool): Option<State> {
    if t !in s.tasks || !s.tasks[t].pc.Spawning? then None
    else if !ok then Some(At(s, t, Finished))
    else
      var p := s.tasks[t].pc.id;
      Some(At(s, t, PublishWait).(
             procs := s.procs[p := Process(s.tasks[t].key, 1, false, true, Shared)],
             refs := s.refs[Own(t) := p],
             trace := s.trace + [Ready(p)]))
  }

  function PublishStep(s: State, t: TaskId): Option<State> {
    if t !in s.tasks || s.tasks[t].pc != PublishMissed || !Droppable(s, Own(t)) then None
    else
      var p := s.refs[Own(t)];
      var s' := MoveRef(At(s, t, Leased), Own(t), Lease(t));
      Some(s'.(lock := None,
               drivers := s.drivers[s.tasks[t].key := p],
               procs := s.procs[p := s.procs[p].(published := true)]))
  }

  function AbandonStep(s: State, t: TaskId): Option<State> {
    if t !in s.tasks then None
    else match s.tasks[t].pc
      case FastWait => Some(At(s, t, Finished))
      case Fetching => Some(At(s, t, Finished))
      case CheckWait => Some(At(s, t, Finished))
      case Spawning(_) => Some(At(s, t, Finished))
      case PublishWait => if Droppable(s, Own(t)) then Some(DropAt(s, Own(t), t, Finished)) else None
      case Leased => if Droppable(s, Lease(t)) then Some(DropAt(s, Lease(t), t, Finished)) else None
      case _ => None
  }

  function Next(s: State, step: Step): Option<State> {
    match step
    case BeginLaunch(t, key, manual) =>
      if t in s.tasks then None
      else Some(s.(tasks := s.tasks[t := Task(key, if manual then CheckWait else FastWait)]))
    case Lock(t) => LockStep(s, t)
    case LookUp(t) => LookUpStep(s, t)
    case Fetched(t, ok) =>
      if t !in s.tasks || s.tasks[t].pc != Fetching then None
      else Some(At(s, t, if ok then CheckWait else Finished))
    case Spawned(t, ok) => SpawnedStep(s, t, ok)
    case Publish(t) => PublishStep(s, t)
    case DropOwn(t) =>
      if t !in s.tasks || s.tasks[t].pc != LostRace || !Droppable(s, Own(t)) then None
      else Some(DropAt(s, Own(t), t, Leased))
    case Abandon(t) => AbandonStep(s, t)
    case ToGuard(t, session) =>
      if t !in s.tasks || s.tasks[t].pc != Leased || Lease(t) !in s.refs || Guard(session) in s.refs then None
      else Some(At(MoveRef(s, Lease(t), Guard(session)), t, Finished))
    case Take(session, op) =>
      if Guard(session) !in s.refs || Taken(session, op) in s.refs then None
      else Some(MoveRef(s, Guard(session), Taken(session, op)))
    case IntoInner(session, op) =>
      if Droppable(s, Taken(session, op)) then Some(Unwrap(s, Taken(session, op))) else None
    case KillOwned(p) =>
      if p !in s.procs || !s.procs[p].fate.OwnedBy? || !s.procs[p].hasChild then None
      else Some(s.(procs := s.procs[p := s.procs[p].(hasChild := false)], trace := s.trace + [Killed(p)]))
    case DropOwned(p) =>
      if p !in s.procs || !s.procs[p].fate.OwnedBy? then None else Some(RunDrop(s, p))
    case DropTaken(session, op) =>
      if Droppable(s, Taken(session, op)) then Some(DropRef(s, Taken(session, op))) else None
    case DropGuard(session) =>
      if Droppable(s, Guard(session)) then Some(DropRef(s, Guard(session))) else None
  }

  /** The steps a launch makes by itself. */
  predicate OfLaunch(step: Step) {
    step.BeginLaunch? || step.Lock? || step.LookUp? || step.Fetched? || step.Spawned? || step.Publish?
    || step.DropOwn? || step.Abandon?
  }

  /** The state after a sequence of steps, or `None` if one of them was not enabled. */
  function Exec(steps: seq<Step>): Option<State> {
    if steps == [] then Some(INIT)
    else match Exec(steps[..|steps| - 1])
      case None => None
      case Some(s) => Next(s, steps[|steps| - 1])
  }

  // ----- the invariant -----

  predicate HoldsOwn(pc: LaunchPc) {
    pc == PublishWait || pc == PublishLocked || pc == PublishMissed || pc == LostRace
  }

  predicate HoldsLease(pc: LaunchPc) {
    pc == LostRace || pc == Leased
  }

  predicate UnderLock(pc: LaunchPc) {
    pc == FastLocked || pc == CheckLocked || pc == PublishLocked || pc == PublishMissed
  }

  ghost predicate Counted(refs: map<Holder, DriverId>, procs: map<DriverId, Process>) {
    && (forall h | h in refs :: refs[h] in procs)
    && (forall p | p in procs :: procs[p].strong == |HoldersOf(refs, p)|)
  }

  /** A published process that anything still references is its key's entry. */
  ghost predicate Registered(drivers: map<DriverKey, DriverId>, procs: map<DriverId, Process>) {
    && (forall k | k in drivers ::
          drivers[k] in procs && procs[drivers[k]].key == k && procs[drivers[k]].published)
    && (forall p | p in procs && procs[p].published && procs[p].strong > 0 ::
          procs[p].key in drivers && drivers[procs[p].key] == p)
  }

  ghost predicate HolderOk(h: Holder, proc: Process, tasks: map<TaskId, Task>) {
    match h
    case Own(t) => !proc.published && t in tasks && HoldsOwn(tasks[t].pc) && proc.key == tasks[t].key
    case Lease(t) => proc.published && t in tasks && HoldsLease(tasks[t].pc) && proc.key == tasks[t].key
    case Guard(_) => proc.published
    case Taken(_, _) => proc.published
  }

  ghost predicate Placed(refs: map<Holder, DriverId>, procs: map<DriverId, Process>, tasks: map<TaskId, Task>) {
    && (forall h | h in refs :: refs[h] in procs && HolderOk(h, procs[refs[h]], tasks))
    && (forall t | t in tasks && HoldsOwn(tasks[t].pc) :: Own(t) in refs)
    && (forall t | t in tasks && HoldsLease(tasks[t].pc) :: Lease(t) in refs)
  }

  /** Nobody but the launch that spawned it refers to an unpublished process. */
  ghost predicate OwnedAlone(refs: map<Holder, DriverId>) {
    forall t, h | Own(t) in refs && h in refs && refs[h] == refs[Own(t)] :: h == Own(t)
  }

  ghost predicate Exclusive(lock: Option<TaskId>, tasks: map<TaskId, Task>) {
    && (forall t | t in tasks :: UnderLock(tasks[t].pc) <==> lock == Some(t))
    && (lock.Some? ==> lock.value in tasks)
  }

  /** Between a publisher's failed look-up and its insertion the key stays without a live entry. */
  ghost predicate MissStands(s: State) {
    s.lock.Some? && s.lock.value in s.tasks && s.tasks[s.lock.value].pc == PublishMissed ==>
      Upgrade(s, s.tasks[s.lock.value].key) == None
  }

  ghost predicate Minted(nextId: DriverId, procs: map<DriverId, Process>, tasks: map<TaskId, Task>) {
    && (forall p | p in procs :: p < nextId)
    && (forall t | t in tasks && tasks[t].pc.Spawning? :: tasks[t].pc.id < nextId && tasks[t].pc.id !in procs)
    && (forall t, t' | t in tasks && t' in tasks && t != t' && tasks[t].pc.Spawning? && tasks[t'].pc.Spawning? ::
          tasks[t].pc.id != tasks[t'].pc.id)
  }

  /** Strong references exist exactly while the process is shared; each end is announced once. */
  ghost predicate FateOk(proc: Process, killed: nat, announced: nat) {
    && (proc.strong > 0 <==> proc.fate == Shared)
    && (proc.fate == Shared ==> proc.hasChild)
    && (proc.fate == Ended ==> !proc.hasChild)
    && killed == (if proc.hasChild then 0 else 1)
    && announced == (if proc.fate == Ended then 1 else 0)
  }

  ghost predicate EndsOnce(procs: map<DriverId, Process>, trace: seq<Event>) {
    && (forall p | p in procs ::
          FateOk(procs[p], multiset(trace)[Killed(p)], multiset(trace)[DriverShutdown(p)]))
    && (forall p: DriverId | p !in procs ::
          multiset(trace)[Killed(p)] == 0 && multiset(trace)[DriverShutdown(p)] == 0)
  }

  ghost predicate Inv(s: State) {
    && Counted(s.refs, s.procs)
    && Registered(s.drivers, s.procs)
    && Placed(s.refs, s.procs, s.tasks)
    && OwnedAlone(s.refs)
    && Exclusive(s.lock, s.tasks)
    && MissStands(s)
    && Minted(s.nextId, s.procs, s.tasks)
    && EndsOnce(s.procs, s.trace)
  }

  // ----- the reference-count operations keep the counts -----

  lemma AddRefCounted(s: State, h: Holder, p: DriverId)
    requires Counted(s.refs, s.procs) && p in s.procs && h !in s.refs
    ensures var s' := AddRef(s, h, p); Counted(s'.refs, s'.procs)
  {
    var refs := s.refs[h := p];
    assert HoldersOf(refs, p) == HoldersOf(s.refs, p) + {h};
    forall q | q in s.procs && q != p ensures HoldersOf(refs, q) == HoldersOf(s.refs, q) {
    }
  }

  lemma MoveRefCounted(s: State, from: Holder, to: Holder)
    requires Counted(s.refs, s.procs) && from in s.refs && to !in s.refs
    ensures var s' := MoveRef(s, from, to); Counted(s'.refs, s'.procs)
  {
    var s' := MoveRef(s, from, to);
    hide Counted;
    forall q | q in s'.procs ensures |HoldersOf(s'.refs, q)| == |HoldersOf(s.refs, q)| {
      MovedHolders(s.refs, from, to, q);
    }
    SameSizesCounted(s.refs, s'.refs, s.procs);
  }

  lemma MovedHolders(refs: map<Holder, DriverId>, from: Holder, to: Holder, q: DriverId)
    requires from in refs && to !in refs
    ensures |HoldersOf((refs - {from})[to := refs[from]], q)| == |HoldersOf(refs, q)|
  {
    var moved := (refs - {from})[to := refs[from]];
    assert HoldersOf(moved, q) == if q == refs[from] then (HoldersOf(refs, q) - {from}) + {to} else HoldersOf(refs, q);
  }

  lemma SameSizesCounted(refs: map<Holder, DriverId>, refs': map<Holder, DriverId>, procs: map<DriverId, Process>)
    requires Counted(refs, procs)
    requires forall h | h in refs' :: exists g | g in refs :: refs[g] == refs'[h]
    requires forall q | q in procs :: |HoldersOf(refs', q)| == |HoldersOf(refs, q)|
    ensures Counted(refs', procs)
  {
    hide HoldersOf;
  }

  /** A held reference is counted, so it can always be dropped; a last reference is the only one. */
  lemma HeldIsCounted(s: State, h: Holder)
    requires Counted(s.refs, s.procs) && h in s.refs
    ensures Droppable(s, h)
    ensures forall h' | h' in s.refs && s.refs[h'] == s.refs[h] && s.procs[s.refs[h]].strong == 1 :: h' == h
  {
    var p := s.refs[h];
    assert h in HoldersOf(s.refs, p);
    forall h' | h' in s.refs && s.refs[h'] == p && s.procs[p].strong == 1 ensures h' == h {
      assert {h, h'} <= HoldersOf(s.refs, p);
      if h' != h {
        assert |{h, h'}| == 2;
        SubsetSize({h, h'}, HoldersOf(s.refs, p));
      }
    }
  }

  lemma {:induction false} SubsetSize<T>(a: set<T>, b: set<T>)
    requires a <= b
    ensures |a| <= |b|
  {
    assert b == a + (b - a);
  }

  lemma UnreferencedIsUncounted(s: State, p: DriverId)
    requires Counted(s.refs, s.procs) && p in s.procs && s.procs[p].strong == 0
    ensures forall h | h in s.refs :: s.refs[h] != p
  {
    forall h | h in s.refs ensures s.refs[h] != p {
      HeldIsCounted(s, h);
    }
  }

  // ----- what one change does to each conjunct -----

  function WithPc(tasks: map<TaskId, Task>, t: TaskId, pc: LaunchPc): map<TaskId, Task>
    requires t in tasks
  {
    tasks[t := tasks[t].(pc := pc)]
  }

  /** A launch enters or leaves the critical section together with the lock. */
  lemma LockFollowsPc(lock: Option<TaskId>, tasks: map<TaskId, Task>, t: TaskId, pc: LaunchPc, lock': Option<TaskId>)
    requires Exclusive(lock, tasks) && t in tasks
    requires UnderLock(pc) <==> lock' == Some(t)
    requires lock' == lock || (lock == None && lock' == Some(t)) || (lock == Some(t) && lock' == None)
    ensures Exclusive(lock', WithPc(tasks, t, pc))
  {
  }

  lemma NewTaskExclusive(lock: Option<TaskId>, tasks: map<TaskId, Task>, t: TaskId, task: Task)
    requires Exclusive(lock, tasks) && t !in tasks && !UnderLock(task.pc)
    ensures Exclusive(lock, tasks[t := task])
  {
  }

  lemma PcPlaced(refs: map<Holder, DriverId>, procs: map<DriverId, Process>, tasks: map<TaskId, Task>,
                 t: TaskId, pc: LaunchPc)
    requires Placed(refs, procs, tasks) && t in tasks
    requires HoldsOwn(pc) == HoldsOwn(tasks[t].pc) && HoldsLease(pc) == HoldsLease(tasks[t].pc)
    ensures Placed(refs, procs, WithPc(tasks, t, pc))
  {
    var tasks' := WithPc(tasks, t, pc);
    forall h | h in refs ensures HolderOk(h, procs[refs[h]], tasks') {
      assert HolderOk(h, procs[refs[h]], tasks);
    }
  }

  lemma NewTaskPlaced(refs: map<Holder, DriverId>, procs: map<DriverId, Process>, tasks: map<TaskId, Task>,
                      t: TaskId, task: Task)
    requires Placed(refs, procs, tasks) && t !in tasks && !HoldsOwn(task.pc) && !HoldsLease(task.pc)
    ensures Placed(refs, procs, tasks[t := task])
  {
    forall h | h in refs ensures HolderOk(h, procs[refs[h]], tasks[t := task]) {
      assert HolderOk(h, procs[refs[h]], tasks);
    }
  }

  lemma PcMinted(nextId: DriverId, procs: map<DriverId, Process>, tasks: map<TaskId, Task>, t: TaskId, pc: LaunchPc)
    requires Minted(nextId, procs, tasks) && t in tasks && !pc.Spawning?
    ensures Minted(nextId, procs, WithPc(tasks, t, pc))
  {
  }

  lemma SpawningMinted(nextId: DriverId, procs: map<DriverId, Process>, tasks: map<TaskId, Task>, t: TaskId)
    requires Minted(nextId, procs, tasks) && t in tasks
    ensures Minted(nextId + 1, procs, WithPc(tasks, t, Spawning(nextId)))
  {
  }

  lemma NewTaskMinted(nextId: DriverId, procs: map<DriverId, Process>, tasks: map<TaskId, Task>, t: TaskId, task: Task)
    requires Minted(nextId, procs, tasks) && !task.pc.Spawning?
    ensures Minted(nextId, procs, tasks[t := task])
  {
  }

  lemma SameIdsMinted(nextId: DriverId, procs: map<DriverId, Process>, procs': map<DriverId, Process>,
                      tasks: map<TaskId, Task>)
    requires Minted(nextId, procs, tasks) && procs'.Keys == procs.Keys
    ensures Minted(nextId, procs', tasks)
  {
    assert forall p :: p in procs' <==> p in procs.Keys;
  }

  /** `procs'` differs from `procs` only in counts, fates and child handles, and revives nothing. */
  ghost predicate SameFaces(procs: map<DriverId, Process>, procs': map<DriverId, Process>) {
    && (forall p :: p in procs <==> p in procs')
    && (forall p | p in procs ::
          && procs'[p].key == procs[p].key && procs'[p].published == procs[p].published
          && (procs'[p].strong > 0 ==> procs[p].strong > 0))
  }

  lemma SameFacesPlaced(refs: map<Holder, DriverId>, procs: map<DriverId, Process>, procs': map<DriverId, Process>,
                        tasks: map<TaskId, Task>)
    requires Placed(refs, procs, tasks) && SameFaces(procs, procs')
    ensures Placed(refs, procs', tasks)
  {
    forall h | h in refs ensures HolderOk(h, procs'[refs[h]], tasks) {
      assert HolderOk(h, procs[refs[h]], tasks);
    }
  }

  lemma SameFacesRegistered(drivers: map<DriverKey, DriverId>, procs: map<DriverId, Process>,
                            procs': map<DriverId, Process>)
    requires Registered(drivers, procs) && SameFaces(procs, procs')
    ensures Registered(drivers, procs')
  {
  }

  lemma SameFacesMissStands(s: State, s': State)
    requires MissStands(s) && Registered(s.drivers, s.procs) && SameFaces(s.procs, s'.procs)
    requires s'.drivers == s.drivers && s'.lock == s.lock
    requires s.lock.Some? ==> s.lock.value in s.tasks && s.lock.value in s'.tasks
                              && s'.tasks[s.lock.value] == s.tasks[s.lock.value]
    ensures MissStands(s')
  {
  }

  lemma HitPlaced(refs: map<Holder, DriverId>, procs: map<DriverId, Process>, tasks: map<TaskId, Task>,
                  t: TaskId, p: DriverId, pc: LaunchPc)
    requires Placed(refs, procs, tasks) && t in tasks && p in procs
    requires procs[p].published && procs[p].key == tasks[t].key
    requires HoldsOwn(pc) == HoldsOwn(tasks[t].pc) && HoldsLease(pc)
    ensures Placed(refs[Lease(t) := p], procs, WithPc(tasks, t, pc))
  {
    var refs', tasks' := refs[Lease(t) := p], WithPc(tasks, t, pc);
    forall h | h in refs' ensures refs'[h] in procs && HolderOk(h, procs[refs'[h]], tasks') {
      if h != Lease(t) {
        assert HolderOk(h, procs[refs[h]], tasks);
      }
    }
  }

  lemma SpawnPlaced(refs: map<Holder, DriverId>, procs: map<DriverId, Process>, tasks: map<TaskId, Task>,
                    t: TaskId, p: DriverId, proc: Process)
    requires Placed(refs, procs, tasks) && t in tasks && tasks[t].pc.Spawning? && p !in procs
    requires !proc.published && proc.key == tasks[t].key
    ensures Placed(refs[Own(t) := p], procs[p := proc], WithPc(tasks, t, PublishWait))
  {
    var refs', procs', tasks' := refs[Own(t) := p], procs[p := proc], WithPc(tasks, t, PublishWait);
    forall h | h in refs' ensures refs'[h] in procs' && HolderOk(h, procs'[refs'[h]], tasks') {
      if h != Own(t) {
        assert HolderOk(h, procs[refs[h]], tasks);
      }
    }
  }

  lemma PublishPlaced(refs: map<Holder, DriverId>, procs: map<DriverId, Process>, tasks: map<TaskId, Task>, t: TaskId)
    requires Placed(refs, procs, tasks) && OwnedAlone(refs)
    requires t in tasks && tasks[t].pc == PublishMissed
    ensures Own(t) in refs && refs[Own(t)] in procs
    ensures var p := refs[Own(t)];
            Placed((refs - {Own(t)})[Lease(t) := p], procs[p := procs[p].(published := true)], WithPc(tasks, t, Leased))
  {
    var p := refs[Own(t)];
    var refs', procs' := (refs - {Own(t)})[Lease(t) := p], procs[p := procs[p].(published := true)];
    var tasks' := WithPc(tasks, t, Leased);
    assert HolderOk(Own(t), procs[p], tasks);
    forall h | h in refs' ensures refs'[h] in procs' && HolderOk(h, procs'[refs'[h]], tasks') {
      if h != Lease(t) {
        assert h in refs && HolderOk(h, procs[refs[h]], tasks);
      }
    }
  }

  /** Dropping the last reference a launch still needed to give up. */
  lemma DropPlaced(refs: map<Holder, DriverId>, procs: map<DriverId, Process>, tasks: map<TaskId, Task>,
                   t: TaskId, h: Holder, pc: LaunchPc)
    requires Placed(refs, procs, tasks) && t in tasks
    requires || (h == Own(t) && !HoldsOwn(pc) && HoldsLease(pc) == HoldsLease(tasks[t].pc))
             || (h == Lease(t) && !HoldsLease(pc) && HoldsOwn(pc) == HoldsOwn(tasks[t].pc))
    ensures Placed(refs - {h}, procs, WithPc(tasks, t, pc))
  {
    RestPlaced(refs, procs, tasks, t, h, pc);
    hide HolderOk;
  }

  lemma RestPlaced(refs: map<Holder, DriverId>, procs: map<DriverId, Process>, tasks: map<TaskId, Task>,
                   t: TaskId, h: Holder, pc: LaunchPc)
    requires t in tasks && forall g | g in refs :: refs[g] in procs && HolderOk(g, procs[refs[g]], tasks)
    requires || (h == Own(t) && !HoldsOwn(pc) && HoldsLease(pc) == HoldsLease(tasks[t].pc))
             || (h == Lease(t) && !HoldsLease(pc) && HoldsOwn(pc) == HoldsOwn(tasks[t].pc))
    ensures forall g | g in refs - {h} :: refs[g] in procs && HolderOk(g, procs[refs[g]], WithPc(tasks, t, pc))
  {
    forall g | g in refs - {h} ensures HolderOk(g, procs[refs[g]], WithPc(tasks, t, pc)) {
      assert HolderOk(g, procs[refs[g]], tasks);
    }
  }

  /** References of guards and releases come and go without touching any launch. */
  lemma GuardPlaced(refs: map<Holder, DriverId>, procs: map<DriverId, Process>, tasks: map<TaskId, Task>, h: Holder)
    requires Placed(refs, procs, tasks) && (h.Guard? || h.Taken?)
    ensures Placed(refs - {h}, procs, tasks)
    ensures forall p | p in procs && procs[p].published :: Placed(refs[h := p], procs, tasks)
  {
    forall g | g in refs ensures HolderOk(g, procs[refs[g]], tasks) {
    }
  }

  lemma EndsOnceAt(procs: map<DriverId, Process>, trace: seq<Event>, p: DriverId, proc: Process, more: seq<Event>)
    requires EndsOnce(procs, trace)
    requires forall q: DriverId | q != p :: Killed(q) !in more && DriverShutdown(q) !in more
    requires FateOk(proc, multiset(trace)[Killed(p)] + multiset(more)[Killed(p)],
                    multiset(trace)[DriverShutdown(p)] + multiset(more)[DriverShutdown(p)])
    ensures EndsOnce(procs[p := proc], trace + more)
  {
    assert multiset(trace + more) == multiset(trace) + multiset(more);
  }

  lemma EndsOnceSame(procs: map<DriverId, Process>, trace: seq<Event>, e: Event)
    requires EndsOnce(procs, trace) && !e.Killed? && !e.DriverShutdown?
    ensures EndsOnce(procs, trace + [e])
  {
    assert multiset(trace + [e]) == multiset(trace) + multiset{e};
  }

  /** Only counts matter to `Counted`. */
  lemma SameCounts(refs: map<Holder, DriverId>, procs: map<DriverId, Process>, p: DriverId, proc: Process)
    requires Counted(refs, procs) && p in procs && proc.strong == procs[p].strong
    ensures Counted(refs, procs[p := proc])
  {
  }

  /** The process a dropped or unwrapped reference leaves behind. */
  function Dropped(proc: Process): Process
    requires proc.strong > 0
  {
    if proc.strong == 1 then proc.(strong := 0, hasChild := false, fate := Ended) else proc.(strong := proc.strong - 1)
  }

  function Unwrapped(proc: Process, h: Holder): Process
    requires proc.strong > 0
  {
    if proc.strong == 1 then proc.(strong := 0, fate := OwnedBy(h)) else proc.(strong := proc.strong - 1)
  }

  /** The two ways a reference goes, as one update of one process. */
  lemma DropRefIs(s: State, h: Holder)
    requires Droppable(s, h) && (s.procs[s.refs[h]].strong == 1 ==> s.procs[s.refs[h]].hasChild)
    ensures var p := s.refs[h]; var proc := Dropped(s.procs[p]);
            && DropRef(s, h) == s.(refs := s.refs - {h}, procs := s.procs[p := proc],
                                   trace := s.trace + (if proc.strong == 0 then [Killed(p), DriverShutdown(p)] else []))
            && Unwrap(s, h) == s.(refs := s.refs - {h}, procs := s.procs[p := Unwrapped(s.procs[p], h)])
  {
    var p := s.refs[h];
    assert s.trace + [Killed(p)] + [DriverShutdown(p)] == s.trace + [Killed(p), DriverShutdown(p)];
    assert s.trace + [] == s.trace;
    if s.procs[p].strong == 1 {
      var d := s.procs[p].(strong := 0);
      assert s.procs[p := d][p := d.(hasChild := false, fate := Ended)] == s.procs[p := Dropped(s.procs[p])];
      assert s.procs[p := d][p := d.(fate := OwnedBy(h))] == s.procs[p := Unwrapped(s.procs[p], h)];
    }
  }

  lemma OneUpdateFaces(procs: map<DriverId, Process>, p: DriverId, proc: Process)
    requires p in procs && proc.key == procs[p].key && proc.published == procs[p].published
    requires proc.strong > 0 ==> procs[p].strong > 0
    ensures SameFaces(procs, procs[p := proc])
  {
  }

  lemma LosesOneCounted(refs: map<Holder, DriverId>, procs: map<DriverId, Process>, h: Holder, proc: Process)
    requires Counted(refs, procs) && h in refs && procs[refs[h]].strong == proc.strong + 1
    ensures Counted(refs - {h}, procs[refs[h] := proc])
  {
    var p := refs[h];
    assert HoldersOf(refs - {h}, p) == HoldersOf(refs, p) - {h};
    forall q | q in procs && q != p ensures HoldersOf(refs - {h}, q) == HoldersOf(refs, q) {
    }
  }

  lemma DropEndsOnce(procs: map<DriverId, Process>, trace: seq<Event>, p: DriverId, h: Holder)
    requires EndsOnce(procs, trace) && p in procs && procs[p].strong > 0
    ensures EndsOnce(procs[p := Unwrapped(procs[p], h)], trace)
    ensures var proc := Dropped(procs[p]);
            EndsOnce(procs[p := proc], trace + (if proc.strong == 0 then [Killed(p), DriverShutdown(p)] else []))
  {
    assert trace + [] == trace;
    assert FateOk(procs[p], multiset(trace)[Killed(p)], multiset(trace)[DriverShutdown(p)]);
    EndsOnceAt(procs, trace, p, Unwrapped(procs[p], h), []);
    EndsOnceAt(procs, trace, p, Dropped(procs[p]),
               if Dropped(procs[p]).strong == 0 then [Killed(p), DriverShutdown(p)] else []);
  }

  lemma SharedHasChild(procs: map<DriverId, Process>, trace: seq<Event>, p: DriverId)
    requires EndsOnce(procs, trace) && p in procs && procs[p].strong > 0
    ensures procs[p].hasChild && procs[p].fate == Shared
  {
    assert FateOk(procs[p], multiset(trace)[Killed(p)], multiset(trace)[DriverShutdown(p)]);
  }

  /** What giving up one reference keeps, whichever way it goes. */
  ghost predicate LosesOne(s: State, h: Holder, s': State) {
    && Counted(s'.refs, s'.procs) && EndsOnce(s'.procs, s'.trace) && SameFaces(s.procs, s'.procs)
    && s' == s.(refs := s.refs - {h}, procs := s'.procs, trace := s'.trace)
  }

  lemma GiveUp(s: State, h: Holder)
    requires Counted(s.refs, s.procs) && EndsOnce(s.procs, s.trace) && h in s.refs
    ensures Droppable(s, h) && LosesOne(s, h, DropRef(s, h)) && LosesOne(s, h, Unwrap(s, h))
  {
    var p := s.refs[h];
    HeldIsCounted(s, h);
    hide EndsOnce, Counted, DropRef, Unwrap;
    SharedHasChild(s.procs, s.trace, p);
    DropRefIs(s, h);
    DropEndsOnce(s.procs, s.trace, p, h);
    LosesOneCounted(s.refs, s.procs, h, Dropped(s.procs[p]));
    LosesOneCounted(s.refs, s.procs, h, Unwrapped(s.procs[p], h));
    OneUpdateFaces(s.procs, p, Dropped(s.procs[p]));
    OneUpdateFaces(s.procs, p, Unwrapped(s.procs[p], h));
  }

  lemma FewerRefsOwnedAlone(refs: map<Holder, DriverId>, h: Holder)
    requires OwnedAlone(refs)
    ensures OwnedAlone(refs - {h})
  {
  }

  lemma MoreRefsOwnedAlone(refs: map<Holder, DriverId>, h: Holder, p: DriverId)
    requires OwnedAlone(refs) && !h.Own?
    requires forall t | Own(t) in refs :: refs[Own(t)] != p
    ensures OwnedAlone(refs[h := p])
  {
  }

  lemma MovedRefOwnedAlone(refs: map<Holder, DriverId>, from: Holder, to: Holder)
    requires OwnedAlone(refs) && from in refs && !to.Own?
    ensures OwnedAlone((refs - {from})[to := refs[from]])
  {
  }

  /** No launch owns a published process. */
  lemma PublishedNotOwned(refs: map<Holder, DriverId>, procs: map<DriverId, Process>, tasks: map<TaskId, Task>, p: DriverId)
    requires Placed(refs, procs, tasks) && p in procs && procs[p].published
    ensures forall t | Own(t) in refs :: refs[Own(t)] != p
  {
    forall t | Own(t) in refs ensures refs[Own(t)] != p {
      assert HolderOk(Own(t), procs[refs[Own(t)]], tasks);
    }
  }

  // ----- every step keeps the invariant -----

  /** A step that only moves one launch's program counter, and the lock with it. */
  lemma PcKeepsInv(s: State, t: TaskId, pc: LaunchPc, lock': Option<TaskId>)
    requires Inv(s) && t in s.tasks && !pc.Spawning?
    requires HoldsOwn(pc) == HoldsOwn(s.tasks[t].pc) && HoldsLease(pc) == HoldsLease(s.tasks[t].pc)
    requires UnderLock(pc) <==> lock' == Some(t)
    requires lock' == s.lock || (s.lock == None && lock' == Some(t)) || (s.lock == Some(t) && lock' == None)
    requires pc == PublishMissed ==> Upgrade(s, s.tasks[t].key) == None
    ensures Inv(At(s, t, pc).(lock := lock'))
  {
    LockFollowsPc(s.lock, s.tasks, t, pc, lock');
    PcPlaced(s.refs, s.procs, s.tasks, t, pc);
    PcMinted(s.nextId, s.procs, s.tasks, t, pc);
    LockHolder(s);
    assert MissStands(At(s, t, pc).(lock := lock'));
    hide Counted, Registered, Placed, OwnedAlone, Exclusive, MissStands, Minted, EndsOnce;
  }

  lemma LockHolder(s: State)
    requires Exclusive(s.lock, s.tasks)
    ensures s.lock.Some? ==> s.lock.value in s.tasks && UnderLock(s.tasks[s.lock.value].pc)
  {
  }

  lemma SpawnStartKeepsInv(s: State, t: TaskId)
    requires Inv(s) && t in s.tasks && s.tasks[t].pc == CheckLocked
    ensures Inv(At(s, t, Spawning(s.nextId)).(lock := None, nextId := s.nextId + 1))
  {
    hide Counted, Registered, Placed, OwnedAlone, Exclusive, Minted, EndsOnce, MissStands;
    InCriticalSection(s.lock, s.tasks, t);
    LockFollowsPc(s.lock, s.tasks, t, Spawning(s.nextId), None);
    PcPlaced(s.refs, s.procs, s.tasks, t, Spawning(s.nextId));
    SpawningMinted(s.nextId, s.procs, s.tasks, t);
    UnlockedMissStands(At(s, t, Spawning(s.nextId)).(lock := None, nextId := s.nextId + 1));
  }

  lemma HitParts(s: State, t: TaskId, p: DriverId, pc: LaunchPc)
    requires Inv(s) && t in s.tasks && UnderLock(s.tasks[t].pc)
    requires p in s.procs && s.procs[p].strong > 0 && s.procs[p].published && s.procs[p].key == s.tasks[t].key
    requires pc == if s.tasks[t].pc == PublishLocked then LostRace else Leased
    requires s.tasks[t].pc != PublishMissed
    ensures var procs' := s.procs[p := s.procs[p].(strong := s.procs[p].strong + 1)];
            && Placed(s.refs[Lease(t) := p], procs', WithPc(s.tasks, t, pc))
            && Registered(s.drivers, procs') && OwnedAlone(s.refs[Lease(t) := p])
            && Minted(s.nextId, procs', WithPc(s.tasks, t, pc))
  {
    hide Counted, Registered, Placed, OwnedAlone, Exclusive, MissStands, Minted, EndsOnce;
    var procs' := s.procs[p := s.procs[p].(strong := s.procs[p].strong + 1)];
    OneUpdateFaces(s.procs, p, procs'[p]);
    SameFacesPlaced(s.refs, s.procs, procs', s.tasks);
    HitPlaced(s.refs, procs', s.tasks, t, p, pc);
    SameFacesRegistered(s.drivers, s.procs, procs');
    PublishedNotOwned(s.refs, s.procs, s.tasks, p);
    MoreRefsOwnedAlone(s.refs, Lease(t), p);
    SameIdsMinted(s.nextId, s.procs, procs', s.tasks);
    PcMinted(s.nextId, procs', s.tasks, t, pc);
  }

  lemma HitKeepsInv(s: State, t: TaskId, p: DriverId, pc: LaunchPc)
    requires Inv(s) && t in s.tasks && UnderLock(s.tasks[t].pc) && s.tasks[t].pc != PublishMissed
    requires Upgrade(s, s.tasks[t].key) == Some(p)
    requires pc == if s.tasks[t].pc == PublishLocked then LostRace else Leased
    ensures Inv(Hit(s, t, p, pc))
  {
    hide Counted, Registered, Placed, OwnedAlone, Exclusive, MissStands, Minted, EndsOnce;
    InCriticalSection(s.lock, s.tasks, t);
    FoundIsPublished(s.drivers, s.procs, s.tasks[t].key);
    LaunchRefs(s.refs, s.procs, s.tasks, t);
    HitParts(s, t, p, pc);
    AddRefCounted(s, Lease(t), p);
    LockFollowsPc(s.lock, s.tasks, t, pc, None);
    HitEndsOnce(s.procs, s.trace, t, p);
    UnlockedMissStands(Hit(s, t, p, pc));
  }

  /** A launch's reference tells how far it is. */
  lemma LaunchRefs(refs: map<Holder, DriverId>, procs: map<DriverId, Process>, tasks: map<TaskId, Task>, t: TaskId)
    requires Placed(refs, procs, tasks) && t in tasks
    ensures Lease(t) in refs ==> HoldsLease(tasks[t].pc) && refs[Lease(t)] in procs && procs[refs[Lease(t)]].published
    ensures Own(t) in refs ==> HoldsOwn(tasks[t].pc) && refs[Own(t)] in procs && !procs[refs[Own(t)]].published
                               && procs[refs[Own(t)]].key == tasks[t].key
  {
    if Lease(t) in refs {
      assert HolderOk(Lease(t), procs[refs[Lease(t)]], tasks);
    }
    if Own(t) in refs {
      assert HolderOk(Own(t), procs[refs[Own(t)]], tasks);
    }
  }

  lemma InCriticalSection(lock: Option<TaskId>, tasks: map<TaskId, Task>, t: TaskId)
    requires Exclusive(lock, tasks) && t in tasks
    ensures lock == Some(t) <==> UnderLock(tasks[t].pc)
  {
  }

  lemma FoundIsPublished(drivers: map<DriverKey, DriverId>, procs: map<DriverId, Process>, key: DriverKey)
    requires Registered(drivers, procs) && key in drivers
    ensures drivers[key] in procs && procs[drivers[key]].published && procs[drivers[key]].key == key
  {
  }

  lemma HitEndsOnce(procs: map<DriverId, Process>, trace: seq<Event>, t: TaskId, p: DriverId)
    requires EndsOnce(procs, trace) && p in procs && procs[p].strong > 0
    ensures EndsOnce(procs[p := procs[p].(strong := procs[p].strong + 1)], trace + [Reused(t, p)])
  {
    EndsOnceAt(procs, trace, p, procs[p].(strong := procs[p].strong + 1), [Reused(t, p)]);
  }

  lemma LookUpKeepsInv(s: State, t: TaskId)
    requires Inv(s) && LookUpStep(s, t).Some?
    ensures Inv(LookUpStep(s, t).value)
  {
    hide Inv, Upgrade, Hit, At;
    match s.tasks[t].pc
    case FastLocked => MissKeepsInv(s, t, Fetching, None); HitOrMiss(s, t, Leased);
    case CheckLocked => SpawnStartKeepsInv(s, t); HitOrMiss(s, t, Leased);
    case PublishLocked => MissKeepsInv(s, t, PublishMissed, Some(t)); HitOrMiss(s, t, LostRace);
    case _ =>
  }

  lemma HitOrMiss(s: State, t: TaskId, pc: LaunchPc)
    requires Inv(s) && t in s.tasks && UnderLock(s.tasks[t].pc) && s.tasks[t].pc != PublishMissed
    requires pc == if s.tasks[t].pc == PublishLocked then LostRace else Leased
    ensures var found := Upgrade(s, s.tasks[t].key); found.Some? ==> Inv(Hit(s, t, found.value, pc))
  {
    hide Inv, Hit;
    var found := Upgrade(s, s.tasks[t].key);
    if found.Some? {
      HitKeepsInv(s, t, found.value, pc);
    }
  }

  lemma MissKeepsInv(s: State, t: TaskId, pc: LaunchPc, lock': Option<TaskId>)
    requires Inv(s) && t in s.tasks
    requires || (s.tasks[t].pc == FastLocked && pc == Fetching && lock' == None)
             || (s.tasks[t].pc == PublishLocked && pc == PublishMissed && lock' == Some(t))
    ensures Upgrade(s, s.tasks[t].key) == None ==> Inv(At(s, t, pc).(lock := lock'))
    ensures At(s, t, pc).(lock := s.lock) == At(s, t, pc) && s.lock == Some(t)
  {
    InvFacts(s);
    hide Inv, Counted, EndsOnce, Upgrade;
    if Upgrade(s, s.tasks[t].key) == None {
      PcKeepsInv(s, t, pc, lock');
    }
  }

  lemma SpawnedCounted(refs: map<Holder, DriverId>, procs: map<DriverId, Process>, t: TaskId, p: DriverId, proc: Process)
    requires Counted(refs, procs) && p !in procs && Own(t) !in refs && proc.strong == 1
    ensures Counted(refs[Own(t) := p], procs[p := proc])
  {
    assert HoldersOf(refs[Own(t) := p], p) == {Own(t)};
    forall q | q in procs ensures HoldersOf(refs[Own(t) := p], q) == HoldersOf(refs, q) {
    }
  }

  lemma SpawnedKeepsInv(s: State, t: TaskId)
    requires Inv(s) && SpawnedStep(s, t, true).Some?
    ensures Inv(SpawnedStep(s, t, true).value)
  {
    hide Counted, Registered, Placed, OwnedAlone, Exclusive, MissStands, Minted, EndsOnce;
    var p, proc := s.tasks[t].pc.id, Process(s.tasks[t].key, 1, false, true, Shared);
    InCriticalSection(s.lock, s.tasks, t);
    SpawnedMinted(s.nextId, s.procs, s.tasks, t, proc);
    LaunchRefs(s.refs, s.procs, s.tasks, t);
    SpawnedCounted(s.refs, s.procs, t, p, proc);
    SpawnPlaced(s.refs, s.procs, s.tasks, t, p, proc);
    LockFollowsPc(s.lock, s.tasks, t, PublishWait, s.lock);
    SpawnedEndsOnce(s.procs, s.trace, p, proc);
    SpawnedRegistered(s.drivers, s.procs, p, proc);
    NewProcOwnedAlone(s.refs, s.procs, t, p);
    SpawnedMissStands(s, t);
  }

  lemma SpawnedMinted(nextId: DriverId, procs: map<DriverId, Process>, tasks: map<TaskId, Task>, t: TaskId, proc: Process)
    requires Minted(nextId, procs, tasks) && t in tasks && tasks[t].pc.Spawning?
    ensures tasks[t].pc.id !in procs
    ensures Minted(nextId, procs[tasks[t].pc.id := proc], WithPc(tasks, t, PublishWait))
  {
  }

  lemma SpawnedRegistered(drivers: map<DriverKey, DriverId>, procs: map<DriverId, Process>, p: DriverId, proc: Process)
    requires Registered(drivers, procs) && p !in procs && !proc.published
    ensures Registered(drivers, procs[p := proc])
  {
  }

  lemma SpawnedMissStands(s: State, t: TaskId)
    requires MissStands(s) && Registered(s.drivers, s.procs) && s.lock != Some(t)
    requires SpawnedStep(s, t, true).Some? && s.tasks[t].pc.id !in s.procs
    ensures MissStands(SpawnedStep(s, t, true).value)
  {
  }

  lemma SpawnedEndsOnce(procs: map<DriverId, Process>, trace: seq<Event>, p: DriverId, proc: Process)
    requires EndsOnce(procs, trace) && p !in procs && proc.strong == 1 && proc.hasChild && proc.fate == Shared
    ensures EndsOnce(procs[p := proc], trace + [Ready(p)])
  {
    EndsOnceSame(procs, trace, Ready(p));
  }

  lemma NewProcOwnedAlone(refs: map<Holder, DriverId>, procs: map<DriverId, Process>, t: TaskId, p: DriverId)
    requires OwnedAlone(refs) && Counted(refs, procs) && p !in procs
    ensures OwnedAlone(refs[Own(t) := p])
  {
  }

  lemma PublishKeepsInv(s: State, t: TaskId)
    requires Inv(s) && PublishStep(s, t).Some?
    ensures Inv(PublishStep(s, t).value)
  {
    hide Counted, Registered, Placed, OwnedAlone, Exclusive, MissStands, Minted, EndsOnce;
    var p := s.refs[Own(t)];
    var proc := s.procs[p].(published := true);
    InCriticalSection(s.lock, s.tasks, t);
    LaunchRefs(s.refs, s.procs, s.tasks, t);
    PublishMisses(s, t);
    PublishPlaced(s.refs, s.procs, s.tasks, t);
    MoveRefCounted(s, Own(t), Lease(t));
    SameCounts((s.refs - {Own(t)})[Lease(t) := p], s.procs, p, proc);
    MovedRefOwnedAlone(s.refs, Own(t), Lease(t));
    LockFollowsPc(s.lock, s.tasks, t, Leased, None);
    PcMinted(s.nextId, s.procs, s.tasks, t, Leased);
    SameIdsMinted(s.nextId, s.procs, s.procs[p := proc], WithPc(s.tasks, t, Leased));
    PublishRegistered(s, s.tasks[t].key, p);
    PublishEndsOnce(s.procs, s.trace, p);
    UnlockedMissStands(PublishStep(s, t).value);
  }

  lemma PublishMisses(s: State, t: TaskId)
    requires MissStands(s) && s.lock == Some(t) && t in s.tasks && s.tasks[t].pc == PublishMissed
    ensures Upgrade(s, s.tasks[t].key) == None
  {
  }

  lemma UnlockedMissStands(s: State)
    requires s.lock == None
    ensures MissStands(s)
  {
  }

  /** Publishing under a missed key leaves at most one live entry per key. */
  lemma PublishRegistered(s: State, key: DriverKey, p: DriverId)
    requires Registered(s.drivers, s.procs) && Upgrade(s, key) == None
    requires p in s.procs && s.procs[p].key == key && !s.procs[p].published
    ensures Registered(s.drivers[key := p], s.procs[p := s.procs[p].(published := true)])
  {
  }

  lemma PublishEndsOnce(procs: map<DriverId, Process>, trace: seq<Event>, p: DriverId)
    requires EndsOnce(procs, trace) && p in procs
    ensures EndsOnce(procs[p := procs[p].(published := true)], trace)
  {
    assert trace + [] == trace;
    assert FateOk(procs[p], multiset(trace)[Killed(p)], multiset(trace)[DriverShutdown(p)]);
    EndsOnceAt(procs, trace, p, procs[p].(published := true), []);
  }

  /** Giving up a reference that no launch holds. */
  lemma GuardGoneKeepsInv(s: State, h: Holder, s': State)
    requires Inv(s) && h in s.refs && (h.Guard? || h.Taken?) && LosesOne(s, h, s')
    ensures Inv(s')
  {
    SameFacesPlaced(s.refs, s.procs, s'.procs, s.tasks);
    GuardPlaced(s.refs, s'.procs, s.tasks, h);
    SameFacesRegistered(s.drivers, s.procs, s'.procs);
    LockHolder(s);
    SameFacesMissStands(s, s');
    FewerRefsOwnedAlone(s.refs, h);
    SameKeys(s.procs, s'.procs);
    SameIdsMinted(s.nextId, s.procs, s'.procs, s.tasks);
    hide Counted, Registered, Placed, OwnedAlone, Exclusive, MissStands, Minted, EndsOnce;
  }

  lemma SameKeys(procs: map<DriverId, Process>, procs': map<DriverId, Process>)
    requires SameFaces(procs, procs')
    ensures procs'.Keys == procs.Keys
  {
  }

  /** A launch drops its own process or its lease. */
  lemma LaunchDropKeepsInv(s: State, t: TaskId, h: Holder, pc: LaunchPc)
    requires Inv(s) && t in s.tasks && !UnderLock(s.tasks[t].pc) && (pc == Leased || pc == Finished)
    requires || (h == Own(t) && HoldsLease(pc) == HoldsLease(s.tasks[t].pc))
             || (h == Lease(t) && !HoldsLease(pc) && !HoldsOwn(s.tasks[t].pc))
    requires h in s.refs && Droppable(s, h)
    ensures Inv(DropAt(s, h, t, pc))
  {
    hide *;
    InvFacts(s);
    GiveUp(s, h);
    DroppableIs(s, h);
    LosingKeepsInv(s, t, h, pc, DropRef(s, h));
    DropAtIs(s, h, t, pc);
  }

  lemma DroppableIs(s: State, h: Holder)
    requires Droppable(s, h)
    ensures h in s.refs && s.refs[h] in s.procs && s.procs[s.refs[h]].strong > 0
  {
  }

  lemma DropAtIs(s: State, h: Holder, t: TaskId, pc: LaunchPc)
    requires Droppable(s, h) && t in s.tasks
    ensures t in DropRef(s, h).tasks && DropAt(s, h, t, pc) == At(DropRef(s, h), t, pc)
  {
  }

  lemma LosingKeepsInv(s: State, t: TaskId, h: Holder, pc: LaunchPc, s1: State)
    requires Inv(s) && t in s.tasks && !UnderLock(s.tasks[t].pc) && (pc == Leased || pc == Finished)
    requires || (h == Own(t) && HoldsLease(pc) == HoldsLease(s.tasks[t].pc))
             || (h == Lease(t) && !HoldsLease(pc) && !HoldsOwn(s.tasks[t].pc))
    requires h in s.refs && LosesOne(s, h, s1)
    ensures Inv(At(s1, t, pc))
  {
    hide Counted, Registered, Placed, OwnedAlone, Exclusive, MissStands, Minted, EndsOnce, SameFaces;
    LaunchDropParts(s, t, h, pc, s1);
    OthersMissStands(s, t, h, pc, s1);
  }

  lemma LaunchDropParts(s: State, t: TaskId, h: Holder, pc: LaunchPc, s1: State)
    requires Inv(s) && t in s.tasks && !UnderLock(s.tasks[t].pc) && (pc == Leased || pc == Finished)
    requires || (h == Own(t) && HoldsLease(pc) == HoldsLease(s.tasks[t].pc))
             || (h == Lease(t) && !HoldsLease(pc) && !HoldsOwn(s.tasks[t].pc))
    requires h in s.refs && SameFaces(s.procs, s1.procs)
    ensures Placed(s.refs - {h}, s1.procs, WithPc(s.tasks, t, pc))
    ensures Registered(s.drivers, s1.procs) && OwnedAlone(s.refs - {h})
    ensures Minted(s.nextId, s1.procs, WithPc(s.tasks, t, pc)) && Exclusive(s.lock, WithPc(s.tasks, t, pc))
  {
    hide Counted, Registered, Placed, OwnedAlone, Exclusive, MissStands, Minted, EndsOnce, SameFaces;
    InCriticalSection(s.lock, s.tasks, t);
    SameFacesPlaced(s.refs, s.procs, s1.procs, s.tasks);
    DropPlaced(s.refs, s1.procs, s.tasks, t, h, pc);
    SameFacesRegistered(s.drivers, s.procs, s1.procs);
    FewerRefsOwnedAlone(s.refs, h);
    SameKeys(s.procs, s1.procs);
    SameIdsMinted(s.nextId, s.procs, s1.procs, s.tasks);
    PcMinted(s.nextId, s1.procs, s.tasks, t, pc);
    LockFollowsPc(s.lock, s.tasks, t, pc, s.lock);
  }

  lemma OthersMissStands(s: State, t: TaskId, h: Holder, pc: LaunchPc, s1: State)
    requires Inv(s) && t in s.tasks && !UnderLock(s.tasks[t].pc)
    requires LosesOne(s, h, s1)
    ensures MissStands(At(s1, t, pc))
  {
    hide Counted, Registered, Placed, OwnedAlone, Exclusive, MissStands, Minted, EndsOnce, SameFaces;
    InCriticalSection(s.lock, s.tasks, t);
    LockHolder(s);
    SameFacesMissStands(s, At(s1, t, pc));
  }

  lemma ToGuardKeepsInv(s: State, t: TaskId, session: SessionId)
    requires Inv(s) && Next(s, ToGuard(t, session)).Some?
    ensures Inv(Next(s, ToGuard(t, session)).value)
  {
    hide Counted, Registered, Placed, OwnedAlone, Exclusive, MissStands, Minted, EndsOnce;
    LaunchRefs(s.refs, s.procs, s.tasks, t);
    InCriticalSection(s.lock, s.tasks, t);
    MoveRefCounted(s, Lease(t), Guard(session));
    MovedRefOwnedAlone(s.refs, Lease(t), Guard(session));
    DropPlaced(s.refs, s.procs, s.tasks, t, Lease(t), Finished);
    GuardPlaced(s.refs - {Lease(t)}, s.procs, WithPc(s.tasks, t, Finished), Guard(session));
    LockFollowsPc(s.lock, s.tasks, t, Finished, s.lock);
    PcMinted(s.nextId, s.procs, s.tasks, t, Finished);
    LockHolder(s);
    SameRefl(s.procs);
    SameFacesMissStands(s, Next(s, ToGuard(t, session)).value);
  }

  lemma SameRefl(procs: map<DriverId, Process>)
    ensures SameFaces(procs, procs)
  {
  }

  lemma TakeKeepsInv(s: State, session: SessionId, op: OpId)
    requires Inv(s) && Next(s, Take(session, op)).Some?
    ensures Inv(Next(s, Take(session, op)).value)
  {
    var p := s.refs[Guard(session)];
    assert HolderOk(Guard(session), s.procs[p], s.tasks);
    MoveRefCounted(s, Guard(session), Taken(session, op));
    MovedRefOwnedAlone(s.refs, Guard(session), Taken(session, op));
    GuardPlaced(s.refs, s.procs, s.tasks, Guard(session));
    GuardPlaced(s.refs - {Guard(session)}, s.procs, s.tasks, Taken(session, op));
    hide Counted, Registered, Placed, OwnedAlone, Exclusive, MissStands, Minted, EndsOnce;
  }

  /** An owner by value kills the child or drops the process. */
  lemma OwnerKeepsInv(s: State, p: DriverId, proc: Process, more: seq<Event>)
    requires Inv(s) && p in s.procs && s.procs[p].fate.OwnedBy?
    requires || (s.procs[p].hasChild && proc == s.procs[p].(hasChild := false) && more == [Killed(p)])
             || (proc == s.procs[p].(hasChild := false, fate := Ended)
                 && more == (if s.procs[p].hasChild then [Killed(p)] else []) + [DriverShutdown(p)])
    ensures Inv(s.(procs := s.procs[p := proc], trace := s.trace + more))
  {
    hide Counted, Registered, Placed, OwnedAlone, Exclusive, MissStands, Minted, EndsOnce, SameFaces;
    OwnerEndsOnce(s.refs, s.procs, s.trace, p, proc, more);
    OneUpdateFaces(s.procs, p, proc);
    SameFacesPlaced(s.refs, s.procs, s.procs[p := proc], s.tasks);
    SameFacesRegistered(s.drivers, s.procs, s.procs[p := proc]);
    SameKeys(s.procs, s.procs[p := proc]);
    SameIdsMinted(s.nextId, s.procs, s.procs[p := proc], s.tasks);
    LockHolder(s);
    SameFacesMissStands(s, s.(procs := s.procs[p := proc], trace := s.trace + more));
  }

  lemma OwnerEndsOnce(refs: map<Holder, DriverId>, procs: map<DriverId, Process>, trace: seq<Event>, p: DriverId,
                      proc: Process, more: seq<Event>)
    requires Counted(refs, procs) && EndsOnce(procs, trace) && p in procs && procs[p].fate.OwnedBy?
    requires || (procs[p].hasChild && proc == procs[p].(hasChild := false) && more == [Killed(p)])
             || (proc == procs[p].(hasChild := false, fate := Ended)
                 && more == (if procs[p].hasChild then [Killed(p)] else []) + [DriverShutdown(p)])
    ensures Counted(refs, procs[p := proc]) && EndsOnce(procs[p := proc], trace + more)
  {
    assert FateOk(procs[p], multiset(trace)[Killed(p)], multiset(trace)[DriverShutdown(p)]);
    hide Counted, EndsOnce;
    SameCounts(refs, procs, p, proc);
    EndsOnceAt(procs, trace, p, proc, more);
  }

  lemma AbandonKeepsInv(s: State, t: TaskId)
    requires Inv(s) && AbandonStep(s, t).Some?
    ensures Inv(AbandonStep(s, t).value)
  {
    InvFacts(s);
    hide Inv, DropRef, Counted, EndsOnce, At, DropAt;
    match s.tasks[t].pc
    case PublishWait => AbandonedKeepsInv(s, t, Own(t));
    case Leased => AbandonedKeepsInv(s, t, Lease(t));
    case _ => PcKeepsInv(s, t, Finished, s.lock);
  }

  lemma AbandonedKeepsInv(s: State, t: TaskId, h: Holder)
    requires Inv(s) && t in s.tasks && Droppable(s, h)
    requires (s.tasks[t].pc == PublishWait && h == Own(t)) || (s.tasks[t].pc == Leased && h == Lease(t))
    ensures Inv(DropAt(s, h, t, Finished))
  {
    hide Inv, DropRef, At;
    LaunchDropKeepsInv(s, t, h, Finished);
  }

  lemma LockKeepsInv(s: State, t: TaskId)
    requires Inv(s) && LockStep(s, t).Some?
    ensures Inv(LockStep(s, t).value)
  {
    hide Inv;
    match s.tasks[t].pc
    case FastWait => PcKeepsInv(s, t, FastLocked, Some(t));
    case CheckWait => PcKeepsInv(s, t, CheckLocked, Some(t));
    case PublishWait => PcKeepsInv(s, t, PublishLocked, Some(t));
    case _ =>
  }

  lemma BeginKeepsInv(s: State, t: TaskId, task: Task)
    requires Inv(s) && t !in s.tasks && (task.pc == FastWait || task.pc == CheckWait)
    ensures Inv(s.(tasks := s.tasks[t := task]))
  {
    hide Counted, Registered, Placed, OwnedAlone, Exclusive, MissStands, Minted, EndsOnce;
    NewTaskExclusive(s.lock, s.tasks, t, task);
    NewTaskPlaced(s.refs, s.procs, s.tasks, t, task);
    NewTaskMinted(s.nextId, s.procs, s.tasks, t, task);
    LockHolder(s);
    SameRefl(s.procs);
    SameFacesMissStands(s, s.(tasks := s.tasks[t := task]));
  }

  /** One step from a state that satisfies the invariant leads to one that does. */
  lemma StepKeepsInv(s: State, step: Step)
    requires Inv(s) && Next(s, step).Some?
    ensures Inv(Next(s, step).value)
  {
    hide Inv, Next;
    if OfLaunch(step) {
      LaunchStepKeepsInv(s, step);
    } else {
      SessionStepKeepsInv(s, step);
    }
  }

  lemma LaunchStepKeepsInv(s: State, step: Step)
    requires Inv(s) && Next(s, step).Some? && OfLaunch(step)
    ensures Inv(Next(s, step).value)
  {
    InvFacts(s);
    hide Inv, Counted, EndsOnce, DropRef, Unwrap, LockStep, LookUpStep, SpawnedStep, PublishStep, AbandonStep, At;
    match step
    case BeginLaunch(t, key, manual) => BeginKeepsInv(s, t, Task(key, if manual then CheckWait else FastWait));
    case Lock(t) => LockKeepsInv(s, t);
    case LookUp(t) => LookUpKeepsInv(s, t);
    case Fetched(t, ok) => FetchedKeepsInv(s, t, ok);
    case Spawned(t, ok) => SpawnedEitherWay(s, t, ok);
    case Publish(t) => PublishKeepsInv(s, t);
    case DropOwn(t) => LaunchDropKeepsInv(s, t, Own(t), Leased);
    case Abandon(t) => AbandonKeepsInv(s, t);
  }

  lemma FetchedKeepsInv(s: State, t: TaskId, ok: bool)
    requires Inv(s) && Next(s, Fetched(t, ok)).Some?
    ensures Inv(Next(s, Fetched(t, ok)).value)
  {
    InvFacts(s);
    hide Inv, Counted, EndsOnce, DropRef, Unwrap, RunDrop, MoveRef, LockStep, LookUpStep, SpawnedStep, PublishStep, AbandonStep;
    PcKeepsInv(s, t, if ok then CheckWait else Finished, s.lock);
  }

  lemma SessionStepKeepsInv(s: State, step: Step)
    requires Inv(s) && Next(s, step).Some? && !OfLaunch(step)
    ensures Inv(Next(s, step).value)
  {
    InvFacts(s);
    hide Inv, Counted, EndsOnce, DropRef, Unwrap, RunDrop, MoveRef;
    match step
    case ToGuard(t, session) => ToGuardKeepsInv(s, t, session);
    case Take(session, op) => TakeKeepsInv(s, session, op);
    case IntoInner(session, op) =>
      GiveUp(s, Taken(session, op));
      GuardGoneKeepsInv(s, Taken(session, op), Unwrap(s, Taken(session, op)));
    case KillOwned(p) => OwnerKeepsInv(s, p, s.procs[p].(hasChild := false), [Killed(p)]);
    case DropOwned(p) => DropOwnedKeepsInv(s, p);
    case DropTaken(session, op) =>
      GiveUp(s, Taken(session, op));
      GuardGoneKeepsInv(s, Taken(session, op), DropRef(s, Taken(session, op)));
    case DropGuard(session) =>
      GiveUp(s, Guard(session));
      GuardGoneKeepsInv(s, Guard(session), DropRef(s, Guard(session)));
  }

  lemma InvFacts(s: State)
    requires Inv(s)
    ensures Counted(s.refs, s.procs) && EndsOnce(s.procs, s.trace)
    ensures forall t | t in s.tasks :: s.lock == Some(t) <==> UnderLock(s.tasks[t].pc)
  {
    hide Counted, EndsOnce, Registered, Placed, OwnedAlone, MissStands, Minted;
  }

  lemma SpawnedEitherWay(s: State, t: TaskId, ok: bool)
    requires Inv(s) && SpawnedStep(s, t, ok).Some?
    ensures Inv(SpawnedStep(s, t, ok).value)
  {
    InvFacts(s);
    hide Inv;
    if ok { SpawnedKeepsInv(s, t); } else { PcKeepsInv(s, t, Finished, s.lock); }
  }

  lemma DropOwnedKeepsInv(s: State, p: DriverId)
    requires Inv(s) && p in s.procs && s.procs[p].fate.OwnedBy?
    ensures Inv(RunDrop(s, p))
  {
    hide Inv;
    var more := (if s.procs[p].hasChild then [Killed(p)] else []) + [DriverShutdown(p)];
    OwnerKeepsInv(s, p, s.procs[p].(hasChild := false, fate := Ended), more);
    assert s.trace + (if s.procs[p].hasChild then [Killed(p)] else []) + [DriverShutdown(p)] == s.trace + more;
  }

  lemma {:induction false} ReachableInv(steps: seq<Step>)
    requires Exec(steps).Some?
    ensures Inv(Exec(steps).value)
  {
    if steps != [] {
      ReachableInv(steps[..|steps| - 1]);
      StepKeepsInv(Exec(steps[..|steps| - 1]).value, steps[|steps| - 1]);
    }
  }

  // ----- what holds in every run -----

  /** All leases and guards held for one key are on one process that was not killed, which is the key's entry;
      a lease is on a process of the key its launch asked for, so launches that asked for one key share it. */
  lemma LeasesShareOneProcess(steps: seq<Step>, h: Holder, h': Holder)
    requires Exec(steps).Some?
    requires h in Exec(steps).value.refs && h' in Exec(steps).value.refs && !h.Own? && !h'.Own?
    ensures var s := Exec(steps).value;
            && s.refs[h] in s.procs && s.refs[h'] in s.procs
            && var key := s.procs[s.refs[h]].key;
            && key in s.drivers && s.drivers[key] == s.refs[h]
            && s.procs[s.refs[h]].hasChild
            && (s.procs[s.refs[h']].key == key ==> s.refs[h'] == s.refs[h])
            && (h.Lease? ==> h.task in s.tasks && s.tasks[h.task].key == key)
            && (h.Lease? && h'.Lease? && h'.task in s.tasks && s.tasks[h'.task].key == s.tasks[h.task].key ==>
                  s.refs[h'] == s.refs[h])
  {
    ReachableInv(steps);
    LeaseIsEntry(Exec(steps).value, h);
    LeaseIsEntry(Exec(steps).value, h');
    hide *;
  }

  lemma LeaseIsEntry(s: State, h: Holder)
    requires Inv(s) && h in s.refs && !h.Own?
    ensures s.refs[h] in s.procs
    ensures var proc := s.procs[s.refs[h]];
            && proc.hasChild && proc.fate == Shared && proc.key in s.drivers && s.drivers[proc.key] == s.refs[h]
            && (h.Lease? ==> h.task in s.tasks && s.tasks[h.task].key == proc.key)
  {
    hide Counted, EndsOnce, OwnedAlone, Exclusive, MissStands, Minted;
    HeldIsCounted(s, h);
    assert HolderOk(h, s.procs[s.refs[h]], s.tasks);
    SharedHasChild(s.procs, s.trace, s.refs[h]);
  }

  /** Neither the key a launch asked for nor the key of a process ever changes. */
  lemma KeysStand(s: State, step: Step)
    requires Inv(s) && Next(s, step).Some?
    ensures KeysKept(s, Next(s, step).value)
  {
    InvFacts(s);
    hide Inv, Counted, EndsOnce, DropRef, Unwrap, LockStep, LookUpStep, SpawnedStep, PublishStep, AbandonStep, KeysKept;
    match step
    case Lock(t) => LaunchKeysStand(s, t, true);
    case LookUp(t) => LaunchKeysStand(s, t, true);
    case Spawned(t, ok) => SpawnKeysStand(s, t, ok);
    case Publish(t) => LaunchKeysStand(s, t, true);
    case Abandon(t) => AbandonKeysStand(s, t);
    case DropOwn(t) => DropKeysStand(s, Own(t), t, Leased);
    case IntoInner(session, op) => UnwrapKeysStand(s, Taken(session, op));
    case DropTaken(session, op) => UnwrapKeysStand(s, Taken(session, op));
    case DropGuard(session) => UnwrapKeysStand(s, Guard(session));
    case _ => OtherKeysStand(s, step);
  }

  ghost predicate KeysKept(s: State, s': State) {
    TaskKeysKept(s.tasks, s'.tasks) && ProcKeysKept(s.procs, s'.procs)
  }

  ghost predicate TaskKeysKept(tasks: map<TaskId, Task>, tasks': map<TaskId, Task>) {
    forall t | t in tasks :: t in tasks' && tasks'[t].key == tasks[t].key
  }

  ghost predicate ProcKeysKept(procs: map<DriverId, Process>, procs': map<DriverId, Process>) {
    forall p | p in procs :: p in procs' && procs'[p].key == procs[p].key
  }

  lemma KeysKeptReflexive(s: State)
    ensures KeysKept(s, s) && TaskKeysKept(s.tasks, s.tasks) && ProcKeysKept(s.procs, s.procs)
  {
  }

  lemma LaunchKeysStand(s: State, t: TaskId, ok: bool)
    ensures LockStep(s, t).Some? ==> KeysKept(s, LockStep(s, t).value)
    ensures LookUpStep(s, t).Some? ==> KeysKept(s, LookUpStep(s, t).value)
    ensures PublishStep(s, t).Some? ==> KeysKept(s, PublishStep(s, t).value)
  {
    LookUpKeysStand(s, t);
    PublishKeysStand(s, t);
    hide LookUpStep, PublishStep;
  }

  lemma LookUpKeysStand(s: State, t: TaskId)
    ensures LookUpStep(s, t).Some? ==> KeysKept(s, LookUpStep(s, t).value)
  {
    hide Upgrade, TaskKeysKept, ProcKeysKept;
    if t in s.tasks {
      FoundExists(s, t);
      var found := Upgrade(s, s.tasks[t].key);
      TaskKeysStand(s.tasks, t, PcAfter(s.tasks[t].pc, found.Some?, s.nextId));
      if found.Some? {
        ProcKeysStand(s.procs, found.value, s.procs[found.value].(strong := s.procs[found.value].strong + 1));
      }
      KeysKeptReflexive(s);
    }
  }

  /** Where a look-up leads; `id` is the one minted for a spawn. */
  function PcAfter(pc: LaunchPc, hit: bool, id: DriverId): LaunchPc {
    match pc
    case FastLocked => if hit then Leased else Fetching
    case CheckLocked => if hit then Leased else Spawning(id)
    case PublishLocked => if hit then LostRace else PublishMissed
    case _ => pc
  }

  lemma TaskKeysStand(tasks: map<TaskId, Task>, t: TaskId, pc: LaunchPc)
    requires t in tasks
    ensures TaskKeysKept(tasks, tasks[t := tasks[t].(pc := pc)])
  {
  }

  lemma ProcKeysStand(procs: map<DriverId, Process>, p: DriverId, proc: Process)
    requires p in procs && proc.key == procs[p].key
    ensures ProcKeysKept(procs, procs[p := proc])
  {
  }

  lemma FoundExists(s: State, t: TaskId)
    ensures t in s.tasks && Upgrade(s, s.tasks[t].key).Some? ==> Upgrade(s, s.tasks[t].key).value in s.procs
  {
  }

  lemma PublishKeysStand(s: State, t: TaskId)
    ensures PublishStep(s, t).Some? ==> KeysKept(s, PublishStep(s, t).value)
  {
  }

  lemma SpawnKeysStand(s: State, t: TaskId, ok: bool)
    requires Inv(s) && SpawnedStep(s, t, ok).Some?
    ensures KeysKept(s, SpawnedStep(s, t, ok).value)
  {
    hide Counted, Registered, Placed, OwnedAlone, Exclusive, MissStands, EndsOnce;
  }

  lemma DropKeysStand(s: State, h: Holder, t: TaskId, pc: LaunchPc)
    ensures Droppable(s, h) && t in s.tasks ==> KeysKept(s, DropAt(s, h, t, pc))
  {
  }

  lemma AbandonKeysStand(s: State, t: TaskId)
    ensures AbandonStep(s, t).Some? ==> KeysKept(s, AbandonStep(s, t).value)
  {
    hide DropAt, Droppable;
    DropKeysStand(s, Own(t), t, Finished);
    DropKeysStand(s, Lease(t), t, Finished);
  }

  lemma UnwrapKeysStand(s: State, h: Holder)
    ensures Droppable(s, h) ==> KeysKept(s, DropRef(s, h)) && KeysKept(s, Unwrap(s, h))
  {
  }

  lemma OtherKeysStand(s: State, step: Step)
    requires Next(s, step).Some?
    requires step.BeginLaunch? || step.Fetched? || step.ToGuard? || step.Take? || step.KillOwned? || step.DropOwned?
    ensures KeysKept(s, Next(s, step).value)
  {
    hide DropRef, Unwrap, LockStep, LookUpStep, SpawnedStep, PublishStep, AbandonStep;
  }

  /** Every process is killed at most once and announced exactly once, only with no reference left;
      with none left it has ended or has one owner by value, whose next drop ends it. */
  lemma EveryProcessEndsOnce(steps: seq<Step>, p: DriverId)
    requires Exec(steps).Some? && p in Exec(steps).value.procs
    ensures var s := Exec(steps).value;
            var killed, announced := multiset(s.trace)[Killed(p)], multiset(s.trace)[DriverShutdown(p)];
            && killed <= 1 && announced <= 1
            && (announced == 1 <==> s.procs[p].fate == Ended)
            && (killed == 1 <==> !s.procs[p].hasChild)
            && (s.procs[p].fate == Shared <==> exists h :: h in s.refs && s.refs[h] == p)
            && (s.procs[p].fate.OwnedBy? ==>
                  Next(s, DropOwned(p)).Some? && Next(s, DropOwned(p)).value.procs[p].fate == Ended)
  {
    ReachableInv(steps);
    var s := Exec(steps).value;
    InvFacts(s);
    hide *;
    SharedMeansHeld(s, p);
    EndedByOwner(s, p);
  }

  lemma SharedMeansHeld(s: State, p: DriverId)
    requires Counted(s.refs, s.procs) && EndsOnce(s.procs, s.trace) && p in s.procs
    ensures FateOk(s.procs[p], multiset(s.trace)[Killed(p)], multiset(s.trace)[DriverShutdown(p)])
    ensures var killed, announced := multiset(s.trace)[Killed(p)], multiset(s.trace)[DriverShutdown(p)];
            && killed <= 1 && announced <= 1
            && (announced == 1 <==> s.procs[p].fate == Ended)
            && (killed == 1 <==> !s.procs[p].hasChild)
    ensures s.procs[p].fate == Shared <==> exists h :: h in s.refs && s.refs[h] == p
  {
    assert FateOk(s.procs[p], multiset(s.trace)[Killed(p)], multiset(s.trace)[DriverShutdown(p)]);
    if s.procs[p].strong == 0 {
      UnreferencedIsUncounted(s, p);
    } else {
      var h :| h in HoldersOf(s.refs, p);
      assert h in s.refs && s.refs[h] == p;
    }
  }

  lemma EndedByOwner(s: State, p: DriverId)
    requires p in s.procs
    ensures s.procs[p].fate.OwnedBy? ==>
              Next(s, DropOwned(p)).Some? && Next(s, DropOwned(p)).value.procs[p].fate == Ended
  {
  }

  /** Nothing a launch or a reference could go through to reach the process. */
  ghost predicate Unreachable(s: State, p: DriverId) {
    && p in s.procs && s.procs[p].strong == 0
    && (forall h | h in s.refs :: s.refs[h] != p)
    && (forall t | t in s.tasks && s.tasks[t].pc.Spawning? :: s.tasks[t].pc.id != p)
  }

  ghost predicate Untouched(s: State, s': Option<State>, p: DriverId)
    requires p in s.procs
  {
    s'.Some? ==> p in s'.value.procs && s'.value.procs[p] == s.procs[p]
  }

  lemma GoneByLaunch(s: State, t: TaskId, ok: bool, p: DriverId)
    requires Unreachable(s, p)
    ensures Untouched(s, LockStep(s, t), p) && Untouched(s, LookUpStep(s, t), p)
    ensures Untouched(s, SpawnedStep(s, t, ok), p) && Untouched(s, PublishStep(s, t), p)
  {
  }

  lemma GoneByDrop(s: State, h: Holder, p: DriverId)
    requires Unreachable(s, p) && Droppable(s, h)
    ensures Untouched(s, Some(DropRef(s, h)), p) && Untouched(s, Some(Unwrap(s, h)), p)
  {
  }

  lemma LaunchLeaves(s: State, step: Step, p: DriverId)
    requires Unreachable(s, p) && OfLaunch(step)
    ensures Untouched(s, Next(s, step), p)
  {
    assert p in s.procs;
    hide Unreachable, DropRef, Unwrap, LockStep, LookUpStep, SpawnedStep, PublishStep;
    match step
    case Lock(t) => GoneByLaunch(s, t, true, p);
    case LookUp(t) => GoneByLaunch(s, t, true, p);
    case Spawned(t, ok) => GoneByLaunch(s, t, ok, p);
    case Publish(t) => GoneByLaunch(s, t, true, p);
    case DropOwn(t) => if Droppable(s, Own(t)) { GoneByDrop(s, Own(t), p); }
    case Abandon(t) =>
      if Droppable(s, Own(t)) { GoneByDrop(s, Own(t), p); }
      if Droppable(s, Lease(t)) { GoneByDrop(s, Lease(t), p); }
    case _ =>
  }

  /** A process that has ended never comes back: its record never changes again. */
  lemma EndedIsForever(s: State, step: Step, p: DriverId)
    requires Inv(s) && Next(s, step).Some? && p in s.procs && s.procs[p].fate == Ended
    ensures p in Next(s, step).value.procs && Next(s, step).value.procs[p] == s.procs[p]
  {
    UnsharedIsUnreachable(s, p);
    hide Inv, Unreachable, DropRef, Unwrap, LockStep, LookUpStep, SpawnedStep, PublishStep, AbandonStep;
    match step
    case IntoInner(session, op) => GoneByDrop(s, Taken(session, op), p);
    case DropTaken(session, op) => GoneByDrop(s, Taken(session, op), p);
    case DropGuard(session) => GoneByDrop(s, Guard(session), p);
    case ToGuard(_, _) =>
    case Take(_, _) =>
    case KillOwned(_) =>
    case DropOwned(_) =>
    case _ => LaunchLeaves(s, step, p);
  }

  lemma UnsharedIsUnreachable(s: State, p: DriverId)
    requires Inv(s) && p in s.procs && s.procs[p].fate != Shared
    ensures Unreachable(s, p)
  {
    hide Placed, OwnedAlone, Exclusive, MissStands, Registered;
    SharedMeansHeld(s, p);
    UnreferencedIsUncounted(s, p);
  }

  lemma {:induction false} EndedForRest(steps: seq<Step>, more: seq<Step>, p: DriverId)
    requires Exec(steps + more).Some? && Exec(steps).Some?
    requires p in Exec(steps).value.procs && Exec(steps).value.procs[p].fate == Ended
    ensures p in Exec(steps + more).value.procs
    ensures Exec(steps + more).value.procs[p] == Exec(steps).value.procs[p]
  {
    if more == [] {
      assert steps + more == steps;
    } else {
      var m := more[..|more| - 1];
      assert (steps + more)[..|steps + more| - 1] == steps + m;
      EndedForRest(steps, m, p);
      ReachableInv(steps + m);
      EndedIsForever(Exec(steps + m).value, more[|more| - 1], p);
    }
  }

  /** The process of a launch that lost the race is ended by its own drop, was never published,
      and no lease or guard refers to it in any later state. */
  lemma LoserNeverHandedOut(steps: seq<Step>, t: TaskId, more: seq<Step>)
    requires Exec(steps).Some? && t in Exec(steps).value.tasks && Exec(steps).value.tasks[t].pc == LostRace
    requires Exec(steps + [DropOwn(t)] + more).Some?
    ensures var s, s' := Exec(steps).value, Exec(steps + [DropOwn(t)] + more).value;
            && Own(t) in s.refs && Lease(t) in s.refs && s.refs[Own(t)] != s.refs[Lease(t)]
            && var p := s.refs[Own(t)];
            && p in s'.procs && s'.procs[p].fate == Ended && !s'.procs[p].published
            && (forall h | h in s'.refs :: s'.refs[h] != p)
  {
    var s, s1 := Exec(steps).value, steps + [DropOwn(t)];
    ReachableInv(steps);
    ReachableInv(s1 + more);
    LostFacts(s, t);
    ExecSnoc(steps, DropOwn(t));
    PrefixEnabled(s1, more);
    hide *;
    EndedForRest(s1, more, s.refs[Own(t)]);
    UnsharedIsUnreachable(Exec(s1 + more).value, s.refs[Own(t)]);
  }

  lemma ExecSnoc(steps: seq<Step>, step: Step)
    requires Exec(steps).Some?
    ensures Exec(steps + [step]) == Next(Exec(steps).value, step)
  {
    assert (steps + [step])[..|steps|] == steps;
  }

  lemma LostFacts(s: State, t: TaskId)
    requires Inv(s) && t in s.tasks && s.tasks[t].pc == LostRace
    ensures Own(t) in s.refs && Lease(t) in s.refs && s.refs[Own(t)] != s.refs[Lease(t)]
    ensures Droppable(s, Own(t))
    ensures var p := s.refs[Own(t)]; var s' := DropRef(s, Own(t));
            && p in s'.procs && s'.procs[p].fate == Ended && !s'.procs[p].published
            && Next(s, DropOwn(t)) == Some(DropAt(s, Own(t), t, Leased))
  {
    hide *;
    LostRefs(s, t);
    HeldIsCounted(s, Own(t));
    LastDropEnds(s, Own(t));
    DropOwnIs(s, t);
  }

  lemma LastDropEnds(s: State, h: Holder)
    requires Droppable(s, h) && s.procs[s.refs[h]].strong == 1
    ensures var p := s.refs[h]; var s' := DropRef(s, h);
            p in s'.procs && s'.procs[p].fate == Ended && s'.procs[p].published == s.procs[p].published
  {
  }

  lemma DropOwnIs(s: State, t: TaskId)
    requires t in s.tasks && s.tasks[t].pc == LostRace && Droppable(s, Own(t))
    ensures Next(s, DropOwn(t)) == Some(DropAt(s, Own(t), t, Leased))
  {
    hide DropRef, Unwrap, LockStep, LookUpStep, SpawnedStep, PublishStep, AbandonStep;
  }

  lemma LostRefs(s: State, t: TaskId)
    requires Inv(s) && t in s.tasks && s.tasks[t].pc == LostRace
    ensures Own(t) in s.refs && Lease(t) in s.refs && s.refs[Own(t)] != s.refs[Lease(t)] && Counted(s.refs, s.procs)
    ensures s.refs[Own(t)] in s.procs && s.procs[s.refs[Own(t)]].strong == 1 && !s.procs[s.refs[Own(t)]].published
  {
    hide EndsOnce, Registered, Exclusive, MissStands, Minted;
    LaunchRefs(s.refs, s.procs, s.tasks, t);
    assert HoldersOf(s.refs, s.refs[Own(t)]) == {Own(t)};
  }

  lemma {:induction false} PrefixEnabled(steps: seq<Step>, more: seq<Step>)
    requires Exec(steps + more).Some?
    ensures Exec(steps).Some?
  {
    if more == [] {
      assert steps + more == steps;
    } else {
      assert (steps + more)[..|steps + more| - 1] == steps + more[..|more| - 1];
      PrefixEnabled(steps, more[..|more| - 1]);
    }
  }

  /** A launch that is over holds nothing. */
  lemma LaunchHolders(s: State, h: Holder)
    requires Inv(s) && h in s.refs && (h.Own? || h.Lease?)
    ensures h.task in s.tasks && s.tasks[h.task].pc != Finished
  {
    hide Registered, Exclusive, MissStands, Minted, EndsOnce, Counted;
    assert HolderOk(h, s.procs[s.refs[h]], s.tasks);
  }
}
