/** `WebDriverManager` and `SessionGuard::release`, with the shared fields updated in place.

    Other launches, releases and drops act between any two atomic actions of a call: what they do is a parameter, of which
    the enabled steps that are not the call's own happen. Every atomic action of a call is proved to be one
    step of `Drivers`, so what holds in every run of the step machine holds of the code. */
module Managers {
  import opened Wrappers
  import opened Drivers

  /** A call that does not get the `drivers` mutex is still waiting for it. */
  datatype Outcome = Waiting | Failed | Got(id: DriverId)

  /** A step another launch, session or owner takes. */
  predicate NotOfLaunch(step: Step, t: TaskId) {
    match step
    case BeginLaunch(u, _, _) => u != t
    case Lock(u) => u != t
    case LookUp(u) => u != t
    case Fetched(u, _) => u != t
    case Spawned(u, _) => u != t
    case Publish(u) => u != t
    case DropOwn(u) => u != t
    case Abandon(u) => u != t
    case ToGuard(u, _) => u != t
    case _ => true
  }

  predicate NotOfRelease(s: State, step: Step, h: Holder) {
    match step
    case Take(x, o) => Taken(x, o) != h
    case IntoInner(x, o) => Taken(x, o) != h
    case DropTaken(x, o) => Taken(x, o) != h
    case KillOwned(p) => p in s.procs ==> s.procs[p].fate != OwnedBy(h)
    case DropOwned(p) => p in s.procs ==> s.procs[p].fate != OwnedBy(h)
    case _ => true
  }

  ghost predicate SameRef(s: State, s': State, h: Holder) {
    (h in s'.refs <==> h in s.refs) && (h in s.refs ==> s'.refs[h] == s.refs[h])
  }

  /** Where a launch is, what it holds and whether it has the lock. */
  ghost predicate SameLaunch(s: State, s': State, t: TaskId) {
    && (t in s'.tasks <==> t in s.tasks) && (t in s.tasks ==> s'.tasks[t] == s.tasks[t])
    && SameRef(s, s', Own(t)) && SameRef(s, s', Lease(t))
    && (s'.lock == Some(t) <==> s.lock == Some(t))
  }

  lemma DropKeeps(s: State, h: Holder)
    requires Droppable(s, h)
    ensures DropRef(s, h).tasks == s.tasks && DropRef(s, h).lock == s.lock && DropRef(s, h).refs == s.refs - {h}
    ensures Unwrap(s, h).tasks == s.tasks && Unwrap(s, h).lock == s.lock && Unwrap(s, h).refs == s.refs - {h}
  {
  }

  lemma OthersLeaveLaunch(s: State, step: Step, t: TaskId)
    requires Inv(s) && Next(s, step).Some? && NotOfLaunch(step, t)
    ensures SameLaunch(s, Next(s, step).value, t)
  {
    hide Inv, Next, SameLaunch;
    if OfLaunch(step) {
      OtherLaunchLeaves(s, step, t);
    } else {
      OtherSessionLeaves(s, step, t);
    }
  }

  lemma OtherLaunchLeaves(s: State, step: Step, t: TaskId)
    requires Inv(s) && Next(s, step).Some? && NotOfLaunch(step, t) && OfLaunch(step)
    ensures SameLaunch(s, Next(s, step).value, t)
  {
    InvFacts(s);
    hide Inv, Counted, EndsOnce, SameLaunch, DropAt, At, LockStep, LookUpStep, SpawnedStep, PublishStep, AbandonStep;
    match step
    case Lock(u) => LaunchLeavesLaunch(s, u, t, true);
    case LookUp(u) => LaunchLeavesLaunch(s, u, t, true);
    case Spawned(u, ok) => LaunchLeavesLaunch(s, u, t, ok);
    case Publish(u) => LaunchLeavesLaunch(s, u, t, true);
    case Abandon(u) => AbandonLeavesLaunch(s, u, t);
    case BeginLaunch(u, key, manual) => NewTaskLeaves(s, u, t, Task(key, if manual then CheckWait else FastWait));
    case Fetched(u, ok) => SimpleLeaves(s, u, t, if ok then CheckWait else Finished);
    case DropOwn(u) => SimpleLeaves(s, u, t, LaunchPc.Leased);
  }

  lemma NewTaskLeaves(s: State, u: TaskId, t: TaskId, task: Task)
    requires u != t
    ensures SameLaunch(s, s.(tasks := s.tasks[u := task]), t)
  {
  }

  lemma SimpleLeaves(s: State, u: TaskId, t: TaskId, pc: LaunchPc)
    requires u != t
    ensures u in s.tasks ==> SameLaunch(s, At(s, u, pc), t)
    ensures u in s.tasks && Droppable(s, Own(u)) ==> SameLaunch(s, DropAt(s, Own(u), u, pc), t)
  {
    hide DropRef, Droppable;
    if Droppable(s, Own(u)) { DropKeeps(s, Own(u)); }
  }

  lemma OtherSessionLeaves(s: State, step: Step, t: TaskId)
    requires Next(s, step).Some? && NotOfLaunch(step, t) && !OfLaunch(step)
    ensures SameLaunch(s, Next(s, step).value, t)
  {
    hide DropRef, Unwrap, Droppable, LockStep, LookUpStep, SpawnedStep, PublishStep, AbandonStep;
    match step
    case IntoInner(x, o) => DropKeeps(s, Taken(x, o));
    case DropTaken(x, o) => DropKeeps(s, Taken(x, o));
    case DropGuard(x) => DropKeeps(s, Guard(x));
    case _ =>
  }

  lemma LaunchLeavesLaunch(s: State, u: TaskId, t: TaskId, ok: bool)
    requires u != t && forall v | v in s.tasks :: s.lock == Some(v) <==> UnderLock(s.tasks[v].pc)
    ensures LockStep(s, u).Some? ==> SameLaunch(s, LockStep(s, u).value, t)
    ensures LookUpStep(s, u).Some? ==> SameLaunch(s, LookUpStep(s, u).value, t)
    ensures SpawnedStep(s, u, ok).Some? ==> SameLaunch(s, SpawnedStep(s, u, ok).value, t)
    ensures PublishStep(s, u).Some? ==> SameLaunch(s, PublishStep(s, u).value, t)
  {
    LookUpLeaves(s, u, t);
    SpawnedLeaves(s, u, t, ok);
    PublishLeaves(s, u, t);
    hide Droppable, LookUpStep, SpawnedStep, PublishStep;
  }

  lemma LookUpLeaves(s: State, u: TaskId, t: TaskId)
    requires u != t && forall v | v in s.tasks :: s.lock == Some(v) <==> UnderLock(s.tasks[v].pc)
    ensures LookUpStep(s, u).Some? ==> SameLaunch(s, LookUpStep(s, u).value, t)
  {
    hide Droppable, Upgrade;
    FoundExists(s, u);
  }

  lemma SpawnedLeaves(s: State, u: TaskId, t: TaskId, ok: bool)
    requires u != t
    ensures SpawnedStep(s, u, ok).Some? ==> SameLaunch(s, SpawnedStep(s, u, ok).value, t)
  {
  }

  lemma PublishLeaves(s: State, u: TaskId, t: TaskId)
    requires u != t && forall v | v in s.tasks :: s.lock == Some(v) <==> UnderLock(s.tasks[v].pc)
    ensures PublishStep(s, u).Some? ==> SameLaunch(s, PublishStep(s, u).value, t)
  {
    hide Droppable;
  }

  lemma LeaseLeaves(s: State, u: TaskId, t: TaskId)
    requires u != t && u in s.tasks && Droppable(s, Lease(u))
    ensures SameLaunch(s, DropAt(s, Lease(u), u, Finished), t)
  {
    hide DropRef, Droppable;
    DropKeeps(s, Lease(u));
  }

  lemma AbandonLeavesLaunch(s: State, u: TaskId, t: TaskId)
    requires u != t
    ensures AbandonStep(s, u).Some? ==> SameLaunch(s, AbandonStep(s, u).value, t)
  {
    hide DropRef, Droppable, At;
    if Droppable(s, Own(u)) { SimpleLeaves(s, u, t, Finished); }
    if u in s.tasks && Droppable(s, Lease(u)) { LeaseLeaves(s, u, t); }
    SimpleLeaves(s, u, t, Finished);
  }

  /** Nobody else does anything between a call's atomic actions. */
  ghost predicate Quiet(others: nat -> seq<Step>) {
    forall i: nat :: others(i) == []
  }

  /** A launch that nobody disturbs, as one transaction: it waits for a held mutex, reuses the live entry of its key, or
      downloads, spawns and publishes a new process under the next id. */
  function Undisturbed(s: State, t: TaskId, key: DriverKey, waits: LaunchPc, fetched: bool, ready: bool): (State, Outcome) {
    if s.lock.Some? then (s.(tasks := s.tasks[t := Task(key, waits)]), Waiting)
    else match Upgrade(s, key)
      case Some(id) =>
        (s.(procs := s.procs[id := s.procs[id].(strong := s.procs[id].strong + 1)], refs := s.refs[Lease(t) := id],
            tasks := s.tasks[t := Task(key, LaunchPc.Leased)], trace := s.trace + [Reused(t, id)]), Got(id))
      case None =>
        if !fetched then (s.(tasks := s.tasks[t := Task(key, Finished)]), Failed)
        else SpawnedAlone(s.(tasks := s.tasks[t := Task(key, Spawning(s.nextId))], nextId := s.nextId + 1), t, ready)
  }

  /** The rest of it: a ready process is published and leased, a failed spawn leaves nothing. */
  function SpawnedAlone(s: State, t: TaskId, ready: bool): (State, Outcome)
    requires t in s.tasks && s.tasks[t].pc.Spawning?
  {
    var key, id := s.tasks[t].key, s.tasks[t].pc.id;
    if ready
    then (s.(drivers := s.drivers[key := id], procs := s.procs[id := Process(key, 1, true, true, Shared)],
             refs := s.refs[Lease(t) := id], tasks := s.tasks[t := Task(key, LaunchPc.Leased)],
             trace := s.trace + [Ready(id)]), Got(id))
    else (s.(tasks := s.tasks[t := Task(key, Finished)]), Failed)
  }

  function Locked(s: State, t: TaskId): State
    requires t in s.tasks
  {
    At(s, t, LockedPc(s.tasks[t].pc)).(lock := Some(t))
  }

  function Looked(s: State, t: TaskId): State
    requires t in s.tasks
  {
    var key, pc := s.tasks[t].key, s.tasks[t].pc;
    match Upgrade(s, key)
    case Some(id) => Hit(s, t, id, PcAfter(pc, true, 0))
    case None => s.(tasks := s.tasks[t := Task(key, PcAfter(pc, false, s.nextId))],
                    nextId := if pc == CheckLocked then s.nextId + 1 else s.nextId,
                    lock := if pc == PublishLocked then s.lock else None)
  }

  class WebDriverManager {
    var drivers: map<DriverKey, DriverId>
    var lock: Option<TaskId>
    var nextDriverId: DriverId
    var procs: map<DriverId, Process>
    var refs: map<Holder, DriverId>
    var tasks: map<TaskId, Task>
    var trace: seq<Event>
    ghost var steps: seq<Step>

    constructor ()
      ensures Valid() && drivers == map[] && procs == map[] && steps == []
    {
      drivers, lock, nextDriverId := map[], None, 0;
      procs, refs, tasks, trace, steps := map[], map[], map[], [], [];
    }

    function Now(): State
      reads this
    {
      State(drivers, lock, nextDriverId, procs, refs, tasks, trace)
    }

    /** The fields are the state after a run of the step machine. */
    ghost predicate Valid()
      reads this
    {
      Exec(steps) == Some(Now())
    }

    ghost method Record(step: Step, before: State)
      requires Exec(steps) == Some(before) && Next(before, step) == Some(Now())
      modifies this`steps
      ensures Valid() && steps == old(steps) + [step]
    {
      ExecSnoc(steps, step);
      steps := steps + [step];
    }

    method Become(s: State)
      modifies this
      ensures Now() == s && steps == old(steps)
    {
      drivers, lock, nextDriverId := s.drivers, s.lock, s.nextId;
      procs, refs, tasks, trace := s.procs, s.refs, s.tasks, s.trace;
    }

    /** The others get to run while launch `t` awaits. */
    method Interfere(t: TaskId, others: seq<Step>)
      requires Valid()
      modifies this
      ensures Valid() && old(steps) <= steps && SameLaunch(old(Now()), Now(), t)
      ensures others == [] ==> Now() == old(Now())
    {
      hide Exec, Next, Inv;
      for i := 0 to |others|
        invariant Valid() && old(steps) <= steps && SameLaunch(old(Now()), Now(), t)
        invariant others == [] ==> Now() == old(Now())
      {
        ghost var before := Now();
        var after := Next(Now(), others[i]);
        if NotOfLaunch(others[i], t) && after.Some? {
          ReachableInv(steps);
          OthersLeaveLaunch(before, others[i], t);
          Become(after.value);
          Record(others[i], before);
        }
      }
    }

    /** Locking the map after awaiting it. */
    method LockMap(t: TaskId, others: seq<Step>) returns (locked: bool)
      requires Valid() && t in tasks && lock != Some(t)
      requires tasks[t].pc == FastWait || tasks[t].pc == CheckWait || tasks[t].pc == PublishWait
      modifies this
      ensures Valid() && old(steps) <= steps && t in tasks && tasks[t].key == old(tasks)[t].key
      ensures SameRef(old(Now()), Now(), Own(t))
      ensures locked ==> lock == Some(t) && tasks[t].pc == LockedPc(old(tasks)[t].pc)
      ensures !locked ==> lock.Some? && tasks[t] == old(tasks)[t] && SameRef(old(Now()), Now(), Lease(t))
      ensures others == [] ==> locked == old(lock).None? && Now() == if locked then Locked(old(Now()), t) else old(Now())
    {
      Interfere(t, others);
      if lock.Some? {
        return false;
      }
      ghost var before := Now();
      lock := Some(t);
      tasks := tasks[t := tasks[t].(pc := LockedPc(tasks[t].pc))];
      Record(Lock(t), before);
      locked := true;
    }

    /** `map.get(&key).and_then(Weak::upgrade)`: an upgrade takes a reference and the mutex is given back. */
    method LookUp(t: TaskId) returns (existing: Option<DriverId>)
      requires Valid() && t in tasks && lock == Some(t)
      requires tasks[t].pc == FastLocked || tasks[t].pc == CheckLocked || tasks[t].pc == PublishLocked
      modifies this
      ensures Valid() && old(steps) <= steps && existing == Upgrade(old(Now()), old(tasks)[t].key)
      ensures t in tasks && tasks[t] == Task(old(tasks)[t].key, PcAfter(old(tasks)[t].pc, existing.Some?, old(nextDriverId)))
      ensures existing.Some? ==> Lease(t) in refs && refs[Lease(t)] == existing.value
      ensures lock == (if existing == None && old(tasks)[t].pc == PublishLocked then Some(t) else None)
      ensures SameRef(old(Now()), Now(), Own(t)) && Now() == Looked(old(Now()), t)
    {
      var key := tasks[t].key;
      if key in drivers && drivers[key] in procs && procs[drivers[key]].strong > 0 {
        existing := Some(drivers[key]);
        Reuse(t, drivers[key]);
      } else {
        existing := None;
        Miss(t);
      }
    }

    method Reuse(t: TaskId, id: DriverId)
      requires Valid() && t in tasks && lock == Some(t) && Upgrade(Now(), tasks[t].key) == Some(id)
      requires tasks[t].pc == FastLocked || tasks[t].pc == CheckLocked || tasks[t].pc == PublishLocked
      modifies this
      ensures Valid() && old(steps) <= steps && lock == None && SameRef(old(Now()), Now(), Own(t))
      ensures t in tasks && tasks[t] == Task(old(tasks)[t].key, PcAfter(old(tasks)[t].pc, true, 0))
      ensures Lease(t) in refs && refs[Lease(t)] == id && Now() == Looked(old(Now()), t)
    {
      ghost var before := Now();
      procs := procs[id := procs[id].(strong := procs[id].strong + 1)];
      refs := refs[Lease(t) := id];
      tasks := tasks[t := tasks[t].(pc := PcAfter(tasks[t].pc, true, 0))];
      lock := None;
      trace := trace + [Reused(t, id)];
      hide Exec, Next;
      LookUpDone(before, t);
      Record(Step.LookUp(t), before);
    }

    method Miss(t: TaskId)
      requires Valid() && t in tasks && Upgrade(Now(), tasks[t].key) == None && lock == Some(t)
      requires tasks[t].pc == FastLocked || tasks[t].pc == CheckLocked || tasks[t].pc == PublishLocked
      modifies this
      ensures Valid() && old(steps) <= steps && refs == old(refs)
      ensures t in tasks && tasks[t] == Task(old(tasks)[t].key, PcAfter(old(tasks)[t].pc, false, old(nextDriverId)))
      ensures lock == if old(tasks)[t].pc == PublishLocked then Some(t) else None
      ensures Now() == Looked(old(Now()), t)
    {
      ghost var before := Now();
      var pc := tasks[t].pc;
      tasks := tasks[t := tasks[t].(pc := PcAfter(pc, false, nextDriverId))];
      if pc == CheckLocked {
        nextDriverId := nextDriverId + 1;
      }
      if pc != PublishLocked {
        lock := None;
      }
      hide Exec, Next;
      LookUpDone(before, t);
      Record(Step.LookUp(t), before);
    }

    /** A spawn ends after others got to run; on success the launch owns the process alone. */
    method Spawn(t: TaskId, others: seq<Step>, ready: bool)
      requires Valid() && t in tasks && tasks[t].pc.Spawning?
      modifies this
      ensures Valid() && old(steps) <= steps && t in tasks && tasks[t].key == old(tasks)[t].key
      ensures tasks[t].pc == if ready then PublishWait else Finished
      ensures ready ==> Own(t) in refs && refs[Own(t)] == old(tasks)[t].pc.id
      ensures others == [] ==> SpawnedStep(old(Now()), t, ready) == Some(Now())
    {
      Interfere(t, others);
      ghost var before := Now();
      var key, id := tasks[t].key, tasks[t].pc.id;
      if ready {
        procs := procs[id := Process(key, 1, false, true, Shared)];
        refs := refs[Own(t) := id];
        tasks := tasks[t := Task(key, PublishWait)];
        trace := trace + [Ready(id)];
      } else {
        tasks := tasks[t := Task(key, Finished)];
      }
      Record(Spawned(t, ready), before);
    }

    /** `map.insert(key, Arc::downgrade(&arc))`: the own process becomes the entry and the lease. */
    method Insert(t: TaskId) returns (id: DriverId)
      requires Valid() && t in tasks && tasks[t].pc == PublishMissed && Droppable(Now(), Own(t))
      modifies this
      ensures Valid() && old(steps) <= steps && id == old(refs)[Own(t)]
      ensures Lease(t) in refs && refs[Lease(t)] == id && t in tasks
      ensures tasks[t] == Task(old(tasks)[t].key, LaunchPc.Leased) && PublishStep(old(Now()), t) == Some(Now())
    {
      ghost var before := Now();
      id := refs[Own(t)];
      refs := (refs - {Own(t)})[Lease(t) := id];
      drivers := drivers[tasks[t].key := id];
      procs := procs[id := procs[id].(published := true)];
      tasks := tasks[t := tasks[t].(pc := LaunchPc.Leased)];
      lock := None;
      Record(Step.Publish(t), before);
    }

    /** Leaving the scope of the own process after a lost race drops it; others may run before that. */
    method DropLoser(t: TaskId, others: seq<Step>)
      requires Valid() && t in tasks && tasks[t].pc == LostRace
      modifies this
      ensures Valid() && old(steps) <= steps && t in tasks
      ensures tasks[t] == Task(old(tasks)[t].key, LaunchPc.Leased)
      ensures SameRef(old(Now()), Now(), Lease(t))
    {
      Interfere(t, others);
      LostOwns(steps, t);
      ghost var before := Now();
      DropKeeps(before, Own(t));
      Become(DropAt(Now(), Own(t), t, LaunchPc.Leased));
      Record(DropOwn(t), before);
    }

    /** One scope of the mutex: lock the map, look up, give it back. */
    method Find(t: TaskId, outside: seq<Step>, inside: seq<Step>) returns (locked: bool, existing: Option<DriverId>)
      requires Valid() && t in tasks && (tasks[t].pc == FastWait || tasks[t].pc == CheckWait) && lock != Some(t)
      modifies this
      ensures Valid() && old(steps) <= steps && t in tasks && tasks[t].key == old(tasks)[t].key
      ensures !locked ==> lock.Some? && existing == None
      ensures existing.Some? ==> Lease(t) in refs && refs[Lease(t)] == existing.value && tasks[t].pc == LaunchPc.Leased
      ensures locked && existing.None? ==>
                if old(tasks)[t].pc == FastWait then tasks[t].pc == Fetching else tasks[t].pc.Spawning?
      ensures outside == [] && inside == [] ==>
                locked == old(lock).None?
                && Now() == (if locked then Looked(Locked(old(Now()), t), t) else old(Now()))
                && (locked ==> existing == Upgrade(Locked(old(Now()), t), old(tasks)[t].key))
    {
      hide Exec, Inv, Next, Upgrade, Looked;
      existing := None;
      locked := LockMap(t, outside);
      if locked {
        Interfere(t, inside);
        existing := LookUp(t);
      }
    }

    /** `spawn_or_reuse`: look up, spawn without the mutex, look up again, then reuse or publish. Only a spawn that does
        not get ready makes it fail. */
    method SpawnOrReuse(t: TaskId, others: nat -> seq<Step>, ready: bool) returns (r: Outcome)
      requires Valid() && t in tasks && tasks[t].pc == CheckWait && lock != Some(t)
      modifies this
      ensures Valid() && old(steps) <= steps && Returned(t, old(tasks)[t].key, r)
      ensures r.Failed? ==> !ready
      ensures Quiet(others) ==> (Now(), r) == Undisturbed(old(Now()), t, old(tasks)[t].key, CheckWait, true, ready)
    {
      hide Exec, Inv, Next, Upgrade, Looked, Locked, Undisturbed;
      ghost var s := Now();
      var locked, existing := Find(t, others(0), others(1));
      LooksAlone(s, t, true, ready);
      if !locked {
        return Waiting;
      }
      if existing.Some? {
        HandsOut(t, existing.value);
        return Got(existing.value);
      }
      r := SpawnAndPublish(t, others, ready);
    }

    method SpawnAndPublish(t: TaskId, others: nat -> seq<Step>, ready: bool) returns (r: Outcome)
      requires Valid() && t in tasks && tasks[t].pc.Spawning?
      modifies this
      ensures Valid() && old(steps) <= steps && Returned(t, old(tasks)[t].key, r)
      ensures r.Failed? <==> !ready
      ensures Quiet(others) && old(lock) == None && Upgrade(old(Now()), old(tasks)[t].key) == None ==>
                (Now(), r) == SpawnedAlone(old(Now()), t, ready)
    {
      hide Exec, Inv, Next, Upgrade, Looked, Locked, SpawnedStep, SpawnedAlone, PublishStep;
      ghost var s := Now();
      ReachableInv(steps);
      if lock == None && Upgrade(s, tasks[t].key) == None {
        SpawnEndsAlone(s, t, ready);
      }
      Spawn(t, others(2), ready);
      if !ready {
        HoldsNothing(t);
        return Failed;
      }
      NotLocked(steps, t);
      var locked := LockMap(t, others(3));
      if !locked {
        return Waiting;
      }
      Interfere(t, others(4));
      var id := Publish(t, others(5));
      r := Got(id);
    }

    /** The re-check under the mutex decides: the process found is reused and the own one dropped, or the own
        one is published. Others act after the re-check too, but the mutex keeps the miss from going stale. */
    method Publish(t: TaskId, others: seq<Step>) returns (id: DriverId)
      requires Valid() && t in tasks && lock == Some(t) && tasks[t].pc == PublishLocked && Own(t) in refs
      modifies this
      ensures Valid() && old(steps) <= steps && Returned(t, old(tasks)[t].key, Got(id))
      ensures var found := Upgrade(old(Now()), old(tasks)[t].key);
              && id == (if found.Some? then found.value else old(refs)[Own(t)])
              && (others == [] && found.None? ==> PublishStep(Looked(old(Now()), t), t) == Some(Now()))
    {
      hide Exec, Inv, Next, Upgrade, Looked, PublishStep;
      var existing := LookUp(t);
      if existing.Some? {
        DropLoser(t, others);
        id := existing.value;
      } else {
        Interfere(t, others);
        HeldDroppable(steps, Own(t));
        id := Insert(t);
      }
      HandsOut(t, id);
    }

    /** `ensure_driver`: a manual binary goes straight to `spawn_or_reuse`, else the fast path comes first. Only a failed
        download, or a spawn that does not get ready, makes it fail; a call that nobody disturbs is one transaction. */
    method EnsureDriver(t: TaskId, key: DriverKey, manual: bool, others: nat -> seq<Step>, fetched: bool, ready: bool)
      returns (r: Outcome)
      requires Valid() && t !in tasks
      modifies this
      ensures Valid() && old(steps) <= steps && Returned(t, key, r)
      ensures r.Failed? ==> !ready || (!manual && !fetched)
      ensures Quiet(others) ==>
                (Now(), r) == Undisturbed(old(Now()), t, key, if manual then CheckWait else FastWait, manual || fetched, ready)
    {
      hide Exec, Inv, Next, Undisturbed, Upgrade, Returned;
      ghost var s := Now();
      Begin(t, key, manual);
      ghost var begun := Now();
      Overwritten(s, t, tasks[t], tasks[t].pc, manual || fetched, ready);
      NotLocked(steps, t);
      if !manual {
        var early := FastPath(t, others, fetched);
        if early.Some? {
          return early.value;
        }
        NotLocked(steps, t);
        Overwritten(begun, t, Task(key, CheckWait), CheckWait, true, ready);
      }
      r := SpawnOrReuse(t, others, ready);
    }

    /** The look-up before the download, and the download. */
    method FastPath(t: TaskId, others: nat -> seq<Step>, fetched: bool) returns (r: Option<Outcome>)
      requires Valid() && t in tasks && tasks[t].pc == FastWait && lock != Some(t)
      modifies this
      ensures Valid() && old(steps) <= steps
      ensures r.Some? ==> Returned(t, old(tasks)[t].key, r.value) && (r.value.Failed? ==> !fetched)
      ensures r.None? ==> fetched && t in tasks && tasks[t] == Task(old(tasks)[t].key, CheckWait)
      ensures Quiet(others) && r.Some? ==>
                forall ready :: (Now(), r.value) == Undisturbed(old(Now()), t, old(tasks)[t].key, FastWait, fetched, ready)
      ensures Quiet(others) && r.None? ==>
                lock == None && Now() == At(old(Now()), t, CheckWait)
    {
      hide Exec, Inv, Next, Upgrade, Looked, Locked, Undisturbed;
      ghost var s := Now();
      LooksAlone(s, t, fetched, true);
      LooksAlone(s, t, fetched, false);
      var locked, existing := Find(t, others(6), others(7));
      if !locked {
        return Some(Waiting);
      }
      if existing.Some? {
        HandsOut(t, existing.value);
        return Some(Got(existing.value));
      }
      Fetch(t, others(8), fetched);
      if !fetched {
        HoldsNothing(t);
        return Some(Failed);
      }
      r := None;
    }

    method Begin(t: TaskId, key: DriverKey, manual: bool)
      requires Valid() && t !in tasks
      modifies this
      ensures Valid() && old(steps) <= steps && Now() == old(Now()).(tasks := tasks)
      ensures tasks == old(tasks)[t := Task(key, if manual then CheckWait else FastWait)]
    {
      ghost var before := Now();
      tasks := tasks[t := Task(key, if manual then CheckWait else FastWait)];
      Record(BeginLaunch(t, key, manual), before);
    }

    method Fetch(t: TaskId, others: seq<Step>, ok: bool)
      requires Valid() && t in tasks && tasks[t].pc == Fetching
      modifies this
      ensures Valid() && old(steps) <= steps && t in tasks
      ensures tasks[t] == Task(old(tasks)[t].key, if ok then CheckWait else Finished)
      ensures others == [] ==> Now() == At(old(Now()), t, if ok then CheckWait else Finished)
    {
      Interfere(t, others);
      ghost var before := Now();
      tasks := tasks[t := tasks[t].(pc := if ok then CheckWait else Finished)];
      Record(Fetched(t, ok), before);
    }

    /** The others get to run while a release is under way. */
    method InterfereWithRelease(h: Holder, others: seq<Step>)
      requires Valid() && h.Taken?
      modifies this
      ensures Valid() && old(steps) <= steps && SameRelease(old(Now()), Now(), h)
      ensures others == [] ==> Now() == old(Now())
    {
      hide Exec, Next, Inv, SameRelease;
      SameReleaseReflexive(Now(), h);
      for i := 0 to |others|
        invariant Valid() && old(steps) <= steps && SameRelease(old(Now()), Now(), h)
        invariant others == [] ==> Now() == old(Now())
      {
        ghost var before := Now();
        var after := Next(Now(), others[i]);
        if NotOfRelease(Now(), others[i], h) && after.Some? {
          ReachableInv(steps);
          OthersLeaveRelease(before, others[i], h);
          SameReleaseTransitive(old(Now()), before, after.value, h);
          Become(after.value);
          Record(others[i], before);
        }
      }
    }

    /** `self.driver().take()`. */
    method TakeDriver(x: SessionId, o: OpId) returns (driver: Option<DriverId>)
      requires Valid() && Taken(x, o) !in refs
      modifies this
      ensures Valid() && old(steps) <= steps && Guard(x) !in refs
      ensures driver == if Guard(x) in old(refs) then Some(old(refs)[Guard(x)]) else None
      ensures driver.Some? ==> Taken(x, o) in refs && refs[Taken(x, o)] == driver.value
      ensures Now() == if driver.Some? then MoveRef(old(Now()), Guard(x), Taken(x, o)) else old(Now())
    {
      if Guard(x) !in refs {
        return None;
      }
      ghost var before := Now();
      driver := Some(refs[Guard(x)]);
      refs := (refs - {Guard(x)})[Taken(x, o) := driver.value];
      Record(Take(x, o), before);
    }

    /** `Arc::into_inner`: the last reference gives the process by value, any other is just gone. */
    method UnwrapDriver(x: SessionId, o: OpId) returns (last: bool)
      requires Valid() && Droppable(Now(), Taken(x, o))
      modifies this
      ensures Valid() && steps == old(steps) + [IntoInner(x, o)] && refs == old(refs) - {Taken(x, o)}
      ensures last == TakesLast(old(Now()), x, o) && Now() == Unwrap(old(Now()), Taken(x, o))
      ensures var id := old(refs)[Taken(x, o)];
              id in procs && procs[id].hasChild && procs[id].fate == if last then OwnedBy(Taken(x, o)) else Shared
    {
      ghost var before := Now();
      var id := refs[Taken(x, o)];
      var strong := procs[id].strong - 1;
      last := strong == 0;
      SharedWhileHeld(steps, Taken(x, o));
      refs := refs - {Taken(x, o)};
      procs := procs[id := procs[id].(strong := strong)];
      if last {
        procs := procs[id := procs[id].(fate := OwnedBy(Taken(x, o)))];
      }
      Record(IntoInner(x, o), before);
    }

    /** `ManagedDriverProcess::shutdown` of a process owned by value: its child is killed, then it is dropped. */
    method ShutDown(h: Holder, id: DriverId, others: nat -> seq<Step>)
      requires Valid() && h.Taken? && id in procs && procs[id].fate == OwnedBy(h) && procs[id].hasChild
      modifies this
      ensures Valid() && old(steps) <= steps && id in procs && procs[id].fate == Ended && !procs[id].hasChild
      ensures Quiet(others) ==> Now() == RunDrop(old(Now()), id)
    {
      hide Exec, Next, Inv;
      InterfereWithRelease(h, others(1));
      Kill(id);
      InterfereWithRelease(h, others(2));
      DropProcess(id);
    }

    method Kill(id: DriverId)
      requires Valid() && id in procs && procs[id].fate.OwnedBy? && procs[id].hasChild
      modifies this
      ensures Valid() && old(steps) <= steps && id in procs && procs[id] == old(procs)[id].(hasChild := false)
      ensures Now() == old(Now()).(procs := old(procs)[id := old(procs)[id].(hasChild := false)], trace := old(trace) + [Killed(id)])
    {
      ghost var before := Now();
      procs := procs[id := procs[id].(hasChild := false)];
      trace := trace + [Killed(id)];
      Record(KillOwned(id), before);
    }

    method DropProcess(id: DriverId)
      requires Valid() && id in procs && procs[id].fate.OwnedBy?
      modifies this
      ensures Valid() && old(steps) <= steps && id in procs && procs[id].fate == Ended && !procs[id].hasChild
      ensures Now() == RunDrop(old(Now()), id)
    {
      ghost var before := Now();
      Become(RunDrop(Now(), id));
      Record(DropOwned(id), before);
    }

    /** `release`: afterwards the guard is empty, and the driver it held has ended or is held by someone else.
        `wait` is how the wait for the killed child goes. The release that takes the last reference, at step `at` of
        the run, is the one that ends the driver, and it reports how the wait went; any other one succeeds. Undisturbed
        it leaves the registry as dropping the guard would. */
    method Release(x: SessionId, o: OpId, others: nat -> seq<Step>, wait: Wait)
      returns (r: Wait, ghost last: bool, ghost at: nat)
      requires Valid() && Taken(x, o) !in refs
      modifies this
      ensures Valid() && old(steps) <= steps
      ensures Guard(x) in old(refs) ==>
                var id := old(refs)[Guard(x)];
                && id in procs
                && multiset(trace)[DriverShutdown(id)] == (if procs[id].fate == Ended then 1 else 0)
                && (procs[id].fate == Ended || exists h :: h in refs && refs[h] == id)
                && (last ==> procs[id].fate == Ended)
                && |old(steps)| <= at < |steps| && steps[at] == IntoInner(x, o)
                && Exec(steps[..at]).Some? && last == TakesLast(Exec(steps[..at]).value, x, o)
      ensures Guard(x) !in old(refs) ==> Now() == old(Now()) && !last
      ensures r == if last then wait else Done
      ensures Quiet(others) && Guard(x) in old(refs) ==>
                Droppable(old(Now()), Guard(x)) && Now() == DropRef(old(Now()), Guard(x))
    {
      hide Exec, Next, Inv, RunDrop, TakesLast, Droppable, DropRef, MoveRef, Unwrap;
      ghost var s := Now();
      if Guard(x) in refs { ReleaseIsDrop(steps, x, o); }
      var h := Taken(x, o);
      var driver := TakeDriver(x, o);
      r, last, at := Done, false, 0;
      if driver.Some? {
        var id := driver.value;
        InterfereWithRelease(h, others(0));
        HeldDroppable(steps, h);
        at := |steps|;
        ghost var before := steps;
        var ends := UnwrapDriver(x, o);
        assert steps[..at] == before;
        last := ends;
        if ends {
          ShutDown(h, id, others);
          r := wait;
          assert steps[..at] == before;
        }
        EveryProcessEndsOnce(steps, id);
      }
    }

    /** What a caller can rely on: a lease is on a process of the key asked for that was not killed and is
        that key's entry, and is all that the launch still holds; a failed launch holds nothing. */
    ghost predicate Returned(t: TaskId, key: DriverKey, r: Outcome)
      reads this
    {
      t in tasks && tasks[t].key == key
      && match r
         case Waiting => lock.Some?
         case Failed => tasks[t].pc == Finished && Own(t) !in refs && Lease(t) !in refs
         case Got(id) =>
           && tasks[t].pc == LaunchPc.Leased && Own(t) !in refs
           && Lease(t) in refs && refs[Lease(t)] == id && id in procs
           && procs[id].key == key && procs[id].hasChild && key in drivers && drivers[key] == id
    }

    lemma HandsOut(t: TaskId, id: DriverId)
      requires Valid() && Lease(t) in refs && refs[Lease(t)] == id && t in tasks && tasks[t].pc == LaunchPc.Leased
      ensures Returned(t, tasks[t].key, Got(id))
    {
      LeasesShareOneProcess(steps, Lease(t), Lease(t));
      LeasedOwnsNothing(steps, t);
      hide Exec;
    }

    lemma HoldsNothing(t: TaskId)
      requires Valid() && t in tasks && tasks[t].pc == Finished
      ensures Returned(t, tasks[t].key, Failed)
    {
      ReachableInv(steps);
      hide Inv, Exec;
      if Own(t) in refs { LaunchHolders(Now(), Own(t)); }
      if Lease(t) in refs { LaunchHolders(Now(), Lease(t)); }
    }
  }

  lemma LeasedOwnsNothing(steps: seq<Step>, t: TaskId)
    requires Exec(steps).Some?
    requires var s := Exec(steps).value; t in s.tasks && !HoldsOwn(s.tasks[t].pc)
    ensures Own(t) !in Exec(steps).value.refs
  {
    ReachableInv(steps);
    hide Exec;
    OwnMeansHeld(Exec(steps).value, t);
  }

  lemma OwnMeansHeld(s: State, t: TaskId)
    requires Inv(s) && t in s.tasks && !HoldsOwn(s.tasks[t].pc)
    ensures Own(t) !in s.refs
  {
    hide Counted, Registered, OwnedAlone, Exclusive, MissStands, Minted, EndsOnce;
  }

  /** What a release holds: its reference, or the process it got by value. */
  ghost predicate SameRelease(s: State, s': State, h: Holder) {
    && SameRef(s, s', h)
    && forall p | p in s.procs && s.procs[p].fate == OwnedBy(h) :: p in s'.procs && s'.procs[p] == s.procs[p]
  }

  lemma SameReleaseReflexive(s: State, h: Holder)
    ensures SameRelease(s, s, h)
  {
  }

  lemma SameReleaseTransitive(s: State, s1: State, s2: State, h: Holder)
    requires SameRelease(s, s1, h) && SameRelease(s1, s2, h)
    ensures SameRelease(s, s2, h)
  {
  }

  lemma OthersLeaveRelease(s: State, step: Step, h: Holder)
    requires Inv(s) && Next(s, step).Some? && NotOfRelease(s, step, h) && h.Taken?
    ensures SameRelease(s, Next(s, step).value, h)
  {
    hide Inv, Next, NotOfRelease;
    if OfLaunch(step) {
      LaunchLeavesRef(s, step, h);
    } else {
      SessionLeavesRef(s, step, h);
    }
    forall p | p in s.procs && s.procs[p].fate == OwnedBy(h)
      ensures p in Next(s, step).value.procs && Next(s, step).value.procs[p] == s.procs[p]
    {
      UnsharedIsUnreachable(s, p);
      if OfLaunch(step) {
        LaunchLeaves(s, step, p);
        UnreachableExists(s, p);
      } else {
        SessionLeavesOwned(s, step, h, p);
      }
    }
  }

  lemma UnreachableExists(s: State, p: DriverId)
    requires Unreachable(s, p)
    ensures p in s.procs
  {
  }

  lemma LaunchLeavesRef(s: State, step: Step, h: Holder)
    requires Next(s, step).Some? && OfLaunch(step) && h.Taken?
    ensures SameRef(s, Next(s, step).value, h)
  {
    hide DropRef, Droppable, Unwrap, Upgrade;
    if step.DropOwn? && Droppable(s, Own(step.task)) { DropKeeps(s, Own(step.task)); }
    if step.Abandon? && Droppable(s, Own(step.task)) { DropKeeps(s, Own(step.task)); }
    if step.Abandon? && Droppable(s, Lease(step.task)) { DropKeeps(s, Lease(step.task)); }
    if step.LookUp? { FoundExists(s, step.task); }
  }

  lemma SessionLeavesRef(s: State, step: Step, h: Holder)
    requires Next(s, step).Some? && NotOfRelease(s, step, h) && !OfLaunch(step) && h.Taken?
    ensures SameRef(s, Next(s, step).value, h)
  {
    hide DropRef, Unwrap, Droppable, LockStep, LookUpStep, SpawnedStep, PublishStep, AbandonStep;
    match step
    case IntoInner(x, o) => DropKeeps(s, Taken(x, o));
    case DropTaken(x, o) => DropKeeps(s, Taken(x, o));
    case DropGuard(x) => DropKeeps(s, Guard(x));
    case _ =>
  }

  lemma SessionLeavesOwned(s: State, step: Step, h: Holder, p: DriverId)
    requires Unreachable(s, p) && Next(s, step).Some? && NotOfRelease(s, step, h) && !OfLaunch(step)
    requires p in s.procs && s.procs[p].fate == OwnedBy(h)
    ensures p in Next(s, step).value.procs && Next(s, step).value.procs[p] == s.procs[p]
  {
    hide Unreachable, DropRef, Unwrap, LockStep, LookUpStep, SpawnedStep, PublishStep, AbandonStep;
    match step
    case IntoInner(x, o) => GoneByDrop(s, Taken(x, o), p);
    case DropTaken(x, o) => GoneByDrop(s, Taken(x, o), p);
    case DropGuard(x) => GoneByDrop(s, Guard(x), p);
    case _ =>
  }

  /** Taking the guard's reference, unwrapping it and ending the process if it was the last one comes to a drop. */
  lemma ReleaseIsDrop(steps: seq<Step>, x: SessionId, o: OpId)
    requires Exec(steps).Some?
    requires var s := Exec(steps).value; Guard(x) in s.refs && Taken(x, o) !in s.refs
    ensures var s := Exec(steps).value;
            var taken := MoveRef(s, Guard(x), Taken(x, o));
            && Droppable(s, Guard(x)) && Droppable(taken, Taken(x, o))
            && DropRef(s, Guard(x)) == (if TakesLast(taken, x, o) then RunDrop(Unwrap(taken, Taken(x, o)), s.refs[Guard(x)])
                                        else Unwrap(taken, Taken(x, o)))
  {
    SharedWhileHeld(steps, Guard(x));
    HeldDroppable(steps, Guard(x));
    UnwrapIsDrop(Exec(steps).value, x, o);
  }

  lemma UnwrapIsDrop(s: State, x: SessionId, o: OpId)
    requires Droppable(s, Guard(x)) && Taken(x, o) !in s.refs && s.procs[s.refs[Guard(x)]].hasChild
    ensures var taken := MoveRef(s, Guard(x), Taken(x, o));
            && Droppable(taken, Taken(x, o))
            && DropRef(s, Guard(x)) == (if TakesLast(taken, x, o) then RunDrop(Unwrap(taken, Taken(x, o)), s.refs[Guard(x)])
                                        else Unwrap(taken, Taken(x, o)))
  {
    var taken := MoveRef(s, Guard(x), Taken(x, o));
    assert taken.refs - {Taken(x, o)} == s.refs - {Guard(x)};
  }

  /** Is the reference op `o` took from the guard the last one of its process? */
  ghost predicate TakesLast(s: State, x: SessionId, o: OpId) {
    Droppable(s, Taken(x, o)) && s.procs[s.refs[Taken(x, o)]].strong == 1
  }

  lemma HeldDroppable(steps: seq<Step>, h: Holder)
    requires Exec(steps).Some? && h in Exec(steps).value.refs
    ensures Droppable(Exec(steps).value, h)
  {
    ReachableInv(steps);
    InvFacts(Exec(steps).value);
    HeldIsCounted(Exec(steps).value, h);
    hide *;
  }

  lemma SharedWhileHeld(steps: seq<Step>, h: Holder)
    requires Exec(steps).Some? && h in Exec(steps).value.refs && !h.Own?
    ensures var s := Exec(steps).value;
            s.refs[h] in s.procs && s.procs[s.refs[h]].fate == Shared && s.procs[s.refs[h]].hasChild
  {
    ReachableInv(steps);
    LeaseIsEntry(Exec(steps).value, h);
    hide *;
  }

  lemma LookUpDone(s: State, t: TaskId)
    requires t in s.tasks && s.lock == Some(t)
    requires s.tasks[t].pc == FastLocked || s.tasks[t].pc == CheckLocked || s.tasks[t].pc == PublishLocked
    ensures Next(s, Step.LookUp(t)) == Some(Looked(s, t))
  {
    hide Hit, Upgrade;
  }

  // ----- a call that nobody disturbs -----

  /** The first look-up of a launch. */
  lemma LooksAlone(s: State, t: TaskId, fetched: bool, ready: bool)
    requires t in s.tasks && (s.tasks[t].pc == FastWait || s.tasks[t].pc == CheckWait)
    ensures var key, pc := s.tasks[t].key, s.tasks[t].pc;
            var alone, s', found := Undisturbed(s, t, key, pc, fetched, ready), Looked(Locked(s, t), t), Upgrade(s, key);
            && (s.lock.Some? ==> alone == (s, Waiting))
            && (s.lock == None ==> Upgrade(Locked(s, t), key) == found)
            && (s.lock == None && found.Some? ==> alone == (s', Got(found.value)))
            && (s.lock == None && found == None ==>
                  if pc == FastWait
                  then s'.lock == None && t in s'.tasks && At(s', t, CheckWait) == At(s, t, CheckWait)
                       && (!fetched ==> alone == (At(s', t, Finished), Failed))
                  else s'.lock == None && Upgrade(s', key) == None && t in s'.tasks && s'.tasks[t] == Task(key, Spawning(s.nextId))
                       && (fetched ==> alone == SpawnedAlone(s', t, ready)))
  {
    hide Undisturbed, SpawnedAlone, Looked, Locked, Upgrade;
    if s.lock.Some? {
      WaitsAlone(s, t, fetched, ready);
    } else if Upgrade(s, s.tasks[t].key).Some? {
      HitsAlone(s, t, fetched, ready);
    } else {
      MissesAlone(s, t, fetched, ready);
    }
  }

  lemma WaitsAlone(s: State, t: TaskId, fetched: bool, ready: bool)
    requires t in s.tasks && s.lock.Some?
    ensures Undisturbed(s, t, s.tasks[t].key, s.tasks[t].pc, fetched, ready) == (s, Waiting)
  {
    assert s.tasks[t := s.tasks[t]] == s.tasks;
  }

  /** A first look-up that hits. */
  lemma HitsAlone(s: State, t: TaskId, fetched: bool, ready: bool)
    requires t in s.tasks && (s.tasks[t].pc == FastWait || s.tasks[t].pc == CheckWait) && s.lock == None
    requires Upgrade(s, s.tasks[t].key).Some?
    ensures Upgrade(Locked(s, t), s.tasks[t].key) == Upgrade(s, s.tasks[t].key)
    ensures Undisturbed(s, t, s.tasks[t].key, s.tasks[t].pc, fetched, ready)
         == (Looked(Locked(s, t), t), Got(Upgrade(s, s.tasks[t].key).value))
  {
    var task := s.tasks[t];
    Twice(s.tasks, t, task.(pc := LockedPc(task.pc)), Task(task.key, LaunchPc.Leased));
  }

  /** A first look-up that misses, on the fast path and in `spawn_or_reuse`. */
  lemma MissesAlone(s: State, t: TaskId, fetched: bool, ready: bool)
    requires t in s.tasks && s.lock == None && Upgrade(s, s.tasks[t].key) == None
    ensures Upgrade(Locked(s, t), s.tasks[t].key) == None
    ensures var s', key := Looked(Locked(s, t), t), s.tasks[t].key;
            && (s.tasks[t].pc == FastWait ==>
                  && s'.lock == None && t in s'.tasks && At(s', t, CheckWait) == At(s, t, CheckWait)
                  && (!fetched ==> Undisturbed(s, t, key, FastWait, fetched, ready) == (At(s', t, Finished), Failed)))
            && (s.tasks[t].pc == CheckWait ==>
                  && s'.lock == None && t in s'.tasks && s'.tasks[t] == Task(key, Spawning(s.nextId)) && Upgrade(s', key) == None
                  && Undisturbed(s, t, key, CheckWait, true, ready) == SpawnedAlone(s', t, ready))
  {
    var key, locked := s.tasks[t].key, Locked(s, t);
    assert Upgrade(locked, key) == None;
    hide Upgrade;
    Twice(s.tasks, t, locked.tasks[t], Task(key, Fetching));
    Twice(s.tasks, t, locked.tasks[t], Task(key, Spawning(s.nextId)));
    Twice(s.tasks, t, Task(key, Fetching), Task(key, CheckWait));
    Twice(s.tasks, t, Task(key, Fetching), Task(key, Finished));
  }

  lemma Twice(tasks: map<TaskId, Task>, t: TaskId, a: Task, b: Task)
    ensures tasks[t := a][t := b] == tasks[t := b]
  {
  }

  /** Where the launch is does not matter for the rest, nor what it waits for if the mutex is free. */
  lemma Overwritten(s: State, t: TaskId, task: Task, waits: LaunchPc, fetched: bool, ready: bool)
    ensures Undisturbed(s.(tasks := s.tasks[t := task]), t, task.key, waits, fetched, ready)
         == Undisturbed(s, t, task.key, waits, fetched, ready)
    ensures s.lock == None ==>
              Undisturbed(s, t, task.key, CheckWait, fetched, ready) == Undisturbed(s, t, task.key, FastWait, fetched, ready)
  {
    var s1 := s.(tasks := s.tasks[t := task]);
    assert Upgrade(s1, task.key) == Upgrade(s, task.key);
    hide SpawnedAlone;
    Twice(s.tasks, t, task, Task(task.key, waits));
    Twice(s.tasks, t, task, Task(task.key, LaunchPc.Leased));
    Twice(s.tasks, t, task, Task(task.key, Finished));
    Twice(s.tasks, t, task, Task(task.key, Spawning(s.nextId)));
  }

  lemma SpawnEndsAlone(s: State, t: TaskId, ready: bool)
    requires Inv(s) && t in s.tasks && s.tasks[t].pc.Spawning? && s.lock == None && Upgrade(s, s.tasks[t].key) == None
    ensures var s1 := SpawnedStep(s, t, ready).value;
            && SpawnedStep(s, t, ready).Some?
            && SpawnedAlone(s, t, ready) == (if ready then SpawnedAlone(s, t, ready).0 else s1,
                                             if ready then Got(s.tasks[t].pc.id) else Failed)
            && (ready ==>
                  && s1.lock == None && t in s1.tasks && s1.tasks[t].key == s.tasks[t].key
                  && Upgrade(Locked(s1, t), s.tasks[t].key) == None
                  && PublishStep(Looked(Locked(s1, t), t), t) == Some(SpawnedAlone(s, t, ready).0))
  {
    if ready {
      var s1 := SpawnedStep(s, t, true).value;
      StillMissing(s, t);
      OwnMeansHeld(s, t);
      PublishesAlone(s, s1, t);
    }
    hide Inv, Upgrade, Looked, Locked, PublishStep;
  }

  lemma StillMissing(s: State, t: TaskId)
    requires Inv(s) && t in s.tasks && s.tasks[t].pc.Spawning? && Upgrade(s, s.tasks[t].key) == None
    ensures SpawnedStep(s, t, true).Some? && Upgrade(SpawnedStep(s, t, true).value, s.tasks[t].key) == None
  {
    hide Counted, Placed, OwnedAlone, Exclusive, MissStands, EndsOnce;
  }

  lemma PublishesAlone(s: State, s1: State, t: TaskId)
    requires t in s.tasks && s.tasks[t].pc.Spawning? && s.lock == None && Own(t) !in s.refs
    requires SpawnedStep(s, t, true) == Some(s1) && Upgrade(s1, s.tasks[t].key) == None
    ensures t in s1.tasks && s1.lock == None && Upgrade(Locked(s1, t), s.tasks[t].key) == None
    ensures PublishStep(Looked(Locked(s1, t), t), t) == Some(SpawnedAlone(s, t, true).0)
  {
    var key, id := s.tasks[t].key, s.tasks[t].pc.id;
    assert Upgrade(Locked(s1, t), key) == None;
    Twice(s.tasks, t, Task(key, PublishWait), Task(key, PublishLocked));
    Twice(s.tasks, t, Task(key, PublishLocked), Task(key, PublishMissed));
    var s2 := s1.(tasks := s.tasks[t := Task(key, PublishMissed)], lock := Some(t));
    assert Looked(Locked(s1, t), t) == s2 by {
      hide Upgrade;
    }
    hide Upgrade, Looked, Locked;
    InsertsAlone(s, s2, t);
  }

  lemma InsertsAlone(s: State, s2: State, t: TaskId)
    requires t in s.tasks && s.tasks[t].pc.Spawning? && s.lock == None && Own(t) !in s.refs
    requires SpawnedStep(s, t, true).Some?
    requires s2 == SpawnedStep(s, t, true).value.(tasks := s.tasks[t := Task(s.tasks[t].key, PublishMissed)], lock := Some(t))
    ensures PublishStep(s2, t) == Some(SpawnedAlone(s, t, true).0)
  {
    var key, id := s.tasks[t].key, s.tasks[t].pc.id;
    assert s2.refs - {Own(t)} == s.refs;
    Twice(s.tasks, t, Task(key, PublishMissed), Task(key, LaunchPc.Leased));
    assert s2.procs[id := s2.procs[id].(published := true)] == s.procs[id := Process(key, 1, true, true, Shared)];
  }

  lemma NotLocked(steps: seq<Step>, t: TaskId)
    requires Exec(steps).Some?
    requires var s := Exec(steps).value; t in s.tasks && !UnderLock(s.tasks[t].pc)
    ensures Exec(steps).value.lock != Some(t)
  {
    ReachableInv(steps);
    InvFacts(Exec(steps).value);
    hide *;
  }

  lemma LostOwns(steps: seq<Step>, t: TaskId)
    requires Exec(steps).Some?
    requires var s := Exec(steps).value; t in s.tasks && s.tasks[t].pc == LostRace
    ensures Droppable(Exec(steps).value, Own(t))
  {
    ReachableInv(steps);
    LostFacts(Exec(steps).value, t);
    hide *;
  }

  function LockedPc(pc: LaunchPc): LaunchPc {
    match pc
    case FastWait => FastLocked
    case CheckWait => CheckLocked
    case PublishWait => PublishLocked
    case _ => pc
  }
}
