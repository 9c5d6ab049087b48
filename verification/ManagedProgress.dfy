/** Managed sessions come to rest: once nothing new is begun, every run is finite, and it can only stop when every launch,
    quit and handle is done. */
module ManagedProgress {
  import opened Wrappers
  import D = Drivers
  import E = SessionEnd
  import opened ManagedSessions

  /** A launch, a handle or a `quit` begins, or a session is leaked; nothing else is up to the caller alone. */
  predicate Begins(step: Step) {
    || (step.Launch? && step.launch.BeginLaunch?)
    || (step.Local? && (step.step.CloneHandle? || step.step.StartQuit? || step.step.Leak?))
  }

  // ----- sums over maps -----

  ghost function Sum<T>(m: map<nat, T>, weight: T -> nat): nat {
    if m == map[] then 0
    else
      var k :| k in m;
      weight(m[k]) + Sum(m - {k}, weight)
  }

  lemma {:induction false} SumSplit<T>(m: map<nat, T>, weight: T -> nat, k: nat)
    requires k in m
    ensures Sum(m, weight) == weight(m[k]) + Sum(m - {k}, weight)
  {
    var j :| j in m && Sum(m, weight) == weight(m[j]) + Sum(m - {j}, weight);
    if j != k {
      SumSplit(m - {j}, weight, k);
      SumSplit(m - {k}, weight, j);
      assert m - {j} - {k} == m - {k} - {j};
    }
  }

  lemma SumUpdate<T>(m: map<nat, T>, weight: T -> nat, k: nat, v: T)
    ensures Sum(m[k := v], weight) == Sum(m, weight) + weight(v) - (if k in m then weight(m[k]) else 0)
  {
    SumSplit(m[k := v], weight, k);
    assert m[k := v] - {k} == m - {k};
    if k in m {
      SumSplit(m, weight, k);
    } else {
      assert m - {k} == m;
    }
  }

  lemma {:induction false} Fresh<T>(m: map<nat, T>) returns (k: nat)
    ensures forall j | j in m :: j < k
  {
    if m == map[] {
      k := 0;
    } else {
      var j :| j in m;
      k := Fresh(m - {j});
      assert forall i | i in m && i != j :: i in m - {j};
      k := if j < k then k else j + 1;
    }
  }

  // ----- how much is left to do -----

  function LaunchWeight(t: D.Task): nat {
    match t.pc
    case FastWait => 32
    case FastLocked => 31
    case Fetching => 30
    case CheckWait => 29
    case CheckLocked => 28
    case Spawning(_) => 27
    case PublishWait => 24
    case PublishLocked => 23
    case PublishMissed => 22
    case LostRace => 21
    case Leased => 20
    case Finished => 0
  }

  function ChildWeight(p: D.Process): nat {
    if p.hasChild then 1 else 0
  }

  function HandleWeight(h: E.Handle): nat {
    match h.pc
    case Live => 12
    case Fallback(_) => 4
    case InnerGuardDrop => 3
    case InnerHandleDrop(_) => 2
    case DroppingFields => 1
    case Gone => 0
  }

  function OpWeight(o: E.Op): nat {
    match o.pc
    case WaitCell => 6
    case Deleting => 5
    case CellDone => 4
    case Taken => 3
    case Ending => 2
    case Finished => 0
  }

  ghost function EndRank(e: E.State): nat {
    Sum(e.handles, HandleWeight) + Sum(e.ops, OpWeight)
  }

  ghost function SessionWeight(m: Managed): nat {
    EndRank(m.end)
  }

  ghost function Rank(s: State): nat {
    Sum(s.d.tasks, LaunchWeight) + Sum(s.d.procs, ChildWeight) + Sum(s.sessions, SessionWeight)
  }

  // ----- the steps of a session's end -----

  lemma OpShrinks(e: E.State, o: E.OpId, pc: E.OpPc)
    requires o in e.ops && OpWeight(e.ops[o].(pc := pc)) < OpWeight(e.ops[o])
    ensures Sum(e.ops[o := e.ops[o].(pc := pc)], OpWeight) < Sum(e.ops, OpWeight)
  {
    SumUpdate(e.ops, OpWeight, o, e.ops[o].(pc := pc));
  }

  lemma HandleShrinks(e: E.State, h: E.HandleId, handle: E.Handle)
    requires h in e.handles && HandleWeight(handle) < HandleWeight(e.handles[h])
    ensures Sum(e.handles[h := handle], HandleWeight) < Sum(e.handles, HandleWeight)
  {
    SumUpdate(e.handles, HandleWeight, h, handle);
  }

  lemma FallbackShrinks(e: E.State, h: E.HandleId, o: E.OpId, runtime: bool)
    requires E.Is(e, h, E.Live) && o !in e.ops
    ensures EndRank(E.StartFallback(e, h, o, runtime)) < EndRank(e)
  {
    var e' := E.StartFallback(e, h, o, runtime);
    SumUpdate(e.handles, HandleWeight, h, e'.handles[h]);
    SumUpdate(e.ops, OpWeight, o, E.Op(E.ByFallback(h), E.WaitCell));
  }

  lemma EndShrinks(e: E.State, step: E.Step)
    requires E.Inv(e) && E.Next(e, step).Some? && !step.CloneHandle? && !step.StartQuit? && !step.Leak?
    ensures EndRank(E.Next(e, step).value) < EndRank(e)
  {
    hide E.Inv, E.Busy, E.StartFallback, E.CanPassTo, E.HasPermit, E.Returned, Sum;
    var e' := E.Next(e, step).value;
    match step
    case EnterCell(o) => OpShrinks(e, o, e'.ops[o].pc);
    case DeleteReply(o, _, _) => OpShrinks(e, o, e'.ops[o].pc);
    case CancelQuit(o, _) => OpShrinks(e, o, e'.ops[o].pc);
    case Release(o, _) => OpShrinks(e, o, e'.ops[o].pc);
    case Unwrapped(o, _) => OpShrinks(e, o, e'.ops[o].pc);
    case EndDone(o) => OpShrinks(e, o, e'.ops[o].pc);
    case BeginDrop(h, o, runtime) =>
      if e.cell.Set? { HandleShrinks(e, h, e'.handles[h]); } else { FallbackShrinks(e, h, o, runtime); }
    case FallbackDone(h) => HandleShrinks(e, h, e'.handles[h]);
    case InnerDrop(h, _) =>
      E.HandleFacts(e, h);
      HandleShrinks(e, h, e'.handles[h]);
    case DropFields(h) => HandleShrinks(e, h, e'.handles[h]);
  }

  // ----- the steps of the registry -----

  lemma ProcsLose(procs: map<D.DriverId, D.Process>, p: D.DriverId, proc: D.Process)
    requires p in procs && (proc.hasChild ==> procs[p].hasChild)
    ensures Sum(procs[p := proc], ChildWeight) <= Sum(procs, ChildWeight)
    ensures procs[p].hasChild && !proc.hasChild ==> Sum(procs[p := proc], ChildWeight) < Sum(procs, ChildWeight)
  {
    SumUpdate(procs, ChildWeight, p, proc);
  }

  /** Neither a drop nor an unwrapping starts anything. */
  lemma LosingIsQuiet(d: D.State, h: D.Holder)
    requires D.Droppable(d, h)
    ensures D.DropRef(d, h).tasks == d.tasks && D.Unwrap(d, h).tasks == d.tasks
    ensures Sum(D.DropRef(d, h).procs, ChildWeight) <= Sum(d.procs, ChildWeight)
    ensures Sum(D.Unwrap(d, h).procs, ChildWeight) <= Sum(d.procs, ChildWeight)
  {
    var p := d.refs[h];
    var less := D.Decrement(d, h);
    ProcsLose(d.procs, p, d.procs[p].(strong := d.procs[p].strong - 1));
    ProcsLose(less.procs, p, less.procs[p].(hasChild := false, fate := D.Ended));
    ProcsLose(less.procs, p, less.procs[p].(fate := D.OwnedBy(h)));
    hide Sum;
  }

  lemma LaunchMoves(d: D.State, t: D.TaskId, task: D.Task)
    requires t in d.tasks && LaunchWeight(task) < LaunchWeight(d.tasks[t])
    ensures Sum(d.tasks[t := task], LaunchWeight) + (LaunchWeight(d.tasks[t]) - LaunchWeight(task)) == Sum(d.tasks, LaunchWeight)
  {
    SumUpdate(d.tasks, LaunchWeight, t, task);
  }

  ghost function LaunchRank(d: D.State): nat {
    Sum(d.tasks, LaunchWeight) + Sum(d.procs, ChildWeight)
  }

  lemma LookUpShrinks(d: D.State, t: D.TaskId)
    requires D.LookUpStep(d, t).Some?
    ensures LaunchRank(D.LookUpStep(d, t).value) < LaunchRank(d)
  {
    hide Sum;
    var d' := D.LookUpStep(d, t).value;
    LaunchMoves(d, t, d'.tasks[t]);
    var found := D.Upgrade(d, d.tasks[t].key);
    if found.Some? {
      ProcsLose(d.procs, found.value, d.procs[found.value].(strong := d.procs[found.value].strong + 1));
    }
  }

  lemma SpawnedShrinks(d: D.State, t: D.TaskId, ok: bool)
    requires D.SpawnedStep(d, t, ok).Some?
    ensures LaunchRank(D.SpawnedStep(d, t, ok).value) < LaunchRank(d)
  {
    hide Sum;
    var d' := D.SpawnedStep(d, t, ok).value;
    LaunchMoves(d, t, d'.tasks[t]);
    if ok {
      SumUpdate(d.procs, ChildWeight, d.tasks[t].pc.id, d'.procs[d.tasks[t].pc.id]);
    }
  }

  lemma PublishShrinks(d: D.State, t: D.TaskId)
    requires D.PublishStep(d, t).Some?
    ensures LaunchRank(D.PublishStep(d, t).value) < LaunchRank(d)
  {
    hide Sum;
    var d' := D.PublishStep(d, t).value;
    LaunchMoves(d, t, d'.tasks[t]);
    var p := d.refs[D.Own(t)];
    ProcsLose(d.procs, p, d.procs[p].(published := true));
  }

  lemma DropAtShrinks(d: D.State, h: D.Holder, t: D.TaskId, pc: D.LaunchPc)
    requires D.Droppable(d, h) && t in d.tasks && LaunchWeight(d.tasks[t].(pc := pc)) < LaunchWeight(d.tasks[t])
    ensures LaunchRank(D.DropAt(d, h, t, pc)) < LaunchRank(d)
  {
    hide Sum, D.DropRef;
    LosingIsQuiet(d, h);
    LaunchMoves(d, t, d.tasks[t].(pc := pc));
  }

  lemma AtShrinks(d: D.State, t: D.TaskId, pc: D.LaunchPc)
    requires t in d.tasks && LaunchWeight(d.tasks[t].(pc := pc)) < LaunchWeight(d.tasks[t])
    ensures LaunchRank(D.At(d, t, pc)) < LaunchRank(d)
  {
    hide Sum;
    LaunchMoves(d, t, d.tasks[t].(pc := pc));
  }

  lemma LaunchShrinks(d: D.State, step: D.Step)
    requires D.Next(d, step).Some? && D.OfLaunch(step) && !step.BeginLaunch?
    ensures LaunchRank(D.Next(d, step).value) < LaunchRank(d)
  {
    hide Sum, D.DropAt, D.LookUpStep, D.SpawnedStep, D.PublishStep;
    match step
    case Lock(t) => LaunchMoves(d, t, D.Next(d, step).value.tasks[t]);
    case LookUp(t) => LookUpShrinks(d, t);
    case Fetched(t, ok) => AtShrinks(d, t, if ok then D.CheckWait else D.Finished);
    case Spawned(t, ok) => SpawnedShrinks(d, t, ok);
    case Publish(t) => PublishShrinks(d, t);
    case DropOwn(t) => DropAtShrinks(d, D.Own(t), t, D.Leased);
    case Abandon(t) =>
      if d.tasks[t].pc == D.PublishWait { DropAtShrinks(d, D.Own(t), t, D.Finished); }
      else if d.tasks[t].pc == D.Leased { DropAtShrinks(d, D.Lease(t), t, D.Finished); }
      else { AtShrinks(d, t, D.Finished); }
  }

  /** The steps of sessions leave the launches alone and start no child. */
  lemma SessionStepsAreQuiet(d: D.State, step: D.Step)
    requires D.Next(d, step).Some? && !D.OfLaunch(step) && !step.ToGuard?
    ensures var d' := D.Next(d, step).value;
            && d'.tasks == d.tasks && Sum(d'.procs, ChildWeight) <= Sum(d.procs, ChildWeight)
            && (step.KillOwned? ==> Sum(d'.procs, ChildWeight) < Sum(d.procs, ChildWeight))
  {
    hide Sum, D.DropRef, D.Unwrap, D.LockStep, D.LookUpStep, D.SpawnedStep, D.PublishStep, D.AbandonStep;
    match step
    case IntoInner(x, o) => LosingIsQuiet(d, D.Taken(x, o));
    case DropTaken(x, o) => LosingIsQuiet(d, D.Taken(x, o));
    case DropGuard(x) => LosingIsQuiet(d, D.Guard(x));
    case KillOwned(p) => ProcsLose(d.procs, p, d.procs[p].(hasChild := false));
    case DropOwned(p) => ProcsLose(d.procs, p, d.procs[p].(hasChild := false, fate := D.Ended));
    case _ =>
  }

  // ----- every step that begins nothing leaves less to do -----

  lemma BothShrink(s: State, x: SessionId, d: D.State, e: E.State)
    requires x in s.sessions && d.tasks == s.d.tasks
    requires Sum(d.procs, ChildWeight) <= Sum(s.d.procs, ChildWeight) && EndRank(e) <= EndRank(s.sessions[x].end)
    requires Sum(d.procs, ChildWeight) < Sum(s.d.procs, ChildWeight) || EndRank(e) < EndRank(s.sessions[x].end)
    ensures Rank(State(d, s.sessions[x := s.sessions[x].(end := e)])) < Rank(s)
  {
    SumUpdate(s.sessions, SessionWeight, x, s.sessions[x].(end := e));
    hide Sum, EndRank;
  }

  /** However the calls interleave and whatever they meet outside: a step that begins nothing leaves less to do. */
  lemma StepShrinks(s: State, step: Step)
    requires Inv(s) && Next(s, step).Some? && !Begins(step)
    ensures Rank(Next(s, step).value) < Rank(s)
  {
    hide Sum, D.Next, E.Next, Inv, EndRank, E.AllGone;
    match step
    case Launch(l) => LaunchShrinks(s.d, l); LaunchIsRanked(s, l);
    case StartSession(t, x, h) => StartShrinks(s, t, x, h);
    case Local(x, l) =>
      SessionFacts(s, x);
      EndShrinks(s.sessions[x].end, l);
      BothShrink(s, x, s.d, E.Next(s.sessions[x].end, l).value);
    case Release(x, o) => ReleaseShrinks(s, x, o);
    case IntoInner(x, o) => IntoInnerShrinks(s, x, o);
    case KillChild(x, o) =>
      SessionStepsAreQuiet(s.d, D.KillOwned(s.sessions[x].proc));
      BothShrink(s, x, D.Next(s.d, D.KillOwned(s.sessions[x].proc)).value, s.sessions[x].end);
    case EndProcess(x, o) =>
      SessionFacts(s, x);
      SessionStepsAreQuiet(s.d, D.DropOwned(s.sessions[x].proc));
      EndShrinks(s.sessions[x].end, E.EndDone(o));
      BothShrink(s, x, D.Next(s.d, D.DropOwned(s.sessions[x].proc)).value, E.Next(s.sessions[x].end, E.EndDone(o)).value);
    case CancelRelease(x, o) => CancelShrinks(s, x, o);
    case DropFields(x, h) => FieldsShrink(s, x, h);
  }

  lemma LaunchIsRanked(s: State, l: D.Step)
    requires Next(s, Launch(l)).Some? && LaunchRank(D.Next(s.d, l).value) < LaunchRank(s.d)
    ensures Rank(Next(s, Launch(l)).value) < Rank(s)
  {
    hide Sum, D.Next;
  }

  lemma StartShrinks(s: State, t: D.TaskId, x: SessionId, h: E.HandleId)
    requires Next(s, StartSession(t, x, h)).Some?
    ensures Rank(Next(s, StartSession(t, x, h)).value) < Rank(s)
  {
    var s' := Next(s, StartSession(t, x, h)).value;
    SumUpdate(s.d.tasks, LaunchWeight, t, s.d.tasks[t].(pc := D.Finished));
    SumUpdate(s.sessions, SessionWeight, x, s'.sessions[x]);
    SumUpdate(map[], HandleWeight, h, E.Handle(E.Live, 0));
    assert E.Init(h).handles == map[][h := E.Handle(E.Live, 0)];
  }

  lemma ReleaseShrinks(s: State, x: SessionId, o: E.OpId)
    requires Inv(s) && Next(s, Release(x, o)).Some?
    ensures Rank(Next(s, Release(x, o)).value) < Rank(s)
  {
    hide Sum, D.Next, E.Next, Inv, EndRank;
    SessionFacts(s, x);
    var e := s.sessions[x].end;
    if o in e.ops && e.ops[o].caller.ByHandle? && D.Guard(x) in s.d.refs {
      SessionStepsAreQuiet(s.d, D.Take(x, o));
      EndShrinks(e, E.Release(o, true));
      BothShrink(s, x, D.Next(s.d, D.Take(x, o)).value, E.Next(e, E.Release(o, true)).value);
    } else {
      EndShrinks(e, E.Release(o, false));
      BothShrink(s, x, s.d, E.Next(e, E.Release(o, false)).value);
    }
  }

  lemma IntoInnerShrinks(s: State, x: SessionId, o: E.OpId)
    requires Inv(s) && Next(s, IntoInner(x, o)).Some?
    ensures Rank(Next(s, IntoInner(x, o)).value) < Rank(s)
  {
    hide Sum, D.Next, E.Next, Inv, EndRank;
    SessionFacts(s, x);
    var last := s.d.procs[s.d.refs[D.Taken(x, o)]].strong == 1;
    SessionStepsAreQuiet(s.d, D.IntoInner(x, o));
    EndShrinks(s.sessions[x].end, E.Unwrapped(o, last));
    BothShrink(s, x, D.Next(s.d, D.IntoInner(x, o)).value, E.Next(s.sessions[x].end, E.Unwrapped(o, last)).value);
  }

  lemma CancelShrinks(s: State, x: SessionId, o: E.OpId)
    requires Inv(s) && Next(s, CancelRelease(x, o)).Some?
    ensures Rank(Next(s, CancelRelease(x, o)).value) < Rank(s)
  {
    hide Sum, D.Next, E.Next, Inv, EndRank;
    SessionFacts(s, x);
    var m := s.sessions[x];
    var drop := if E.OpIs(m.end, o, E.Taken) then D.DropTaken(x, o) else D.DropOwned(m.proc);
    SessionStepsAreQuiet(s.d, drop);
    EndShrinks(m.end, E.CancelQuit(o, None));
    BothShrink(s, x, D.Next(s.d, drop).value, E.Next(m.end, E.CancelQuit(o, None)).value);
  }

  lemma FieldsShrink(s: State, x: SessionId, h: E.HandleId)
    requires Inv(s) && Next(s, DropFields(x, h)).Some?
    ensures Rank(Next(s, DropFields(x, h)).value) < Rank(s)
  {
    hide Sum, D.Next, E.Next, Inv, EndRank, E.AllGone;
    SessionFacts(s, x);
    EndShrinks(s.sessions[x].end, E.DropFields(h));
    var e := E.Next(s.sessions[x].end, E.DropFields(h)).value;
    if E.AllGone(e) && D.Guard(x) in s.d.refs {
      SessionStepsAreQuiet(s.d, D.DropGuard(x));
      BothShrink(s, x, D.Next(s.d, D.DropGuard(x)).value, e);
    } else {
      BothShrink(s, x, s.d, e);
    }
  }

  // ----- something can be done unless all is done -----

  lemma HeldDroppable(d: D.State, h: D.Holder)
    requires D.Inv(d) && h in d.refs
    ensures D.Droppable(d, h)
  {
    hide *;
    D.InvFacts(d);
    D.HeldIsCounted(d, h);
  }

  lemma HeldInPlace(s: State, h: D.Holder)
    requires Inv(s) && h in s.d.refs
    ensures RefOk(s.sessions, h, s.d.refs[h]) && D.Droppable(s.d, h)
  {
    InvParts(s);
    hide Inv, D.Inv, D.Droppable, RefOk, SessionsOk, OwnersOk;
    HeldDroppable(s.d, h);
  }

  lemma LaunchHolds(d: D.State, t: D.TaskId)
    requires D.Inv(d) && t in d.tasks
    ensures D.HoldsOwn(d.tasks[t].pc) ==> D.Droppable(d, D.Own(t))
    ensures D.HoldsLease(d.tasks[t].pc) ==> D.Lease(t) in d.refs
  {
    OwnInPlace(d, t);
    hide D.Inv, D.Droppable;
    if D.Own(t) in d.refs { HeldDroppable(d, D.Own(t)); }
  }

  lemma OwnInPlace(d: D.State, t: D.TaskId)
    requires D.Inv(d) && t in d.tasks
    ensures D.HoldsOwn(d.tasks[t].pc) ==> D.Own(t) in d.refs
    ensures D.HoldsLease(d.tasks[t].pc) ==> D.Lease(t) in d.refs
  {
    hide D.Counted, D.Registered, D.OwnedAlone, D.Exclusive, D.MissStands, D.Minted, D.EndsOnce;
  }

  lemma LockHeldByTask(d: D.State)
    requires D.Inv(d) && d.lock.Some?
    ensures d.lock.value in d.tasks && D.UnderLock(d.tasks[d.lock.value].pc)
  {
    hide D.Counted, D.Registered, D.OwnedAlone, D.Placed, D.MissStands, D.Minted, D.EndsOnce;
  }

  /** A launch under way can move, or the one that has the mutex can. */
  lemma LaunchCanMove(d: D.State, t: D.TaskId) returns (step: D.Step)
    requires D.Inv(d) && t in d.tasks && d.tasks[t].pc != D.Finished && d.tasks[t].pc != D.Leased
    ensures D.OfLaunch(step) && !step.BeginLaunch? && D.Next(d, step).Some?
  {
    hide D.Inv, D.Next, D.Droppable;
    var u := if D.LockStep(d, t).Some? || !Waits(d.tasks[t].pc) then t else d.lock.value;
    if d.lock.Some? { LockHeldByTask(d); }
    LaunchHolds(d, u);
    step := LaunchStep(d, u);
  }

  predicate Waits(pc: D.LaunchPc) {
    pc == D.FastWait || pc == D.CheckWait || pc == D.PublishWait
  }

  lemma LaunchStep(d: D.State, u: D.TaskId) returns (step: D.Step)
    requires u in d.tasks && d.tasks[u].pc != D.Finished && d.tasks[u].pc != D.Leased
    requires Waits(d.tasks[u].pc) ==> d.lock == None
    requires D.HoldsOwn(d.tasks[u].pc) ==> D.Droppable(d, D.Own(u))
    ensures D.OfLaunch(step) && !step.BeginLaunch? && D.Next(d, step).Some?
  {
    hide D.Droppable, D.Upgrade, D.DropRef, D.Hit;
    match d.tasks[u].pc
    case FastWait => step := D.Lock(u);
    case CheckWait => step := D.Lock(u);
    case PublishWait => step := D.Lock(u);
    case Fetching => step := D.Fetched(u, true);
    case Spawning(_) => step := D.Spawned(u, true);
    case PublishMissed => step := D.Publish(u);
    case LostRace => step := D.DropOwn(u);
    case _ => step := D.LookUp(u);
  }

  /** A returned launch can start its session. */
  lemma LeaseCanStart(s: State, t: D.TaskId) returns (step: Step)
    requires Inv(s) && t in s.d.tasks && s.d.tasks[t].pc == D.Leased
    ensures Next(s, step).Some? && !Begins(step)
  {
    hide Inv, D.Inv, SessionsOk, RefsOk, OwnersOk, D.Droppable;
    InvParts(s);
    LaunchHolds(s.d, t);
    var x := Fresh(s.sessions);
    if D.Guard(x) in s.d.refs { HeldInPlace(s, D.Guard(x)); }
    step := StartSession(t, x, 0);
  }

  /** An unfinished `quit` can move, or the one that has the permit can. */
  lemma OpCanMove(s: State, x: SessionId, o: E.OpId) returns (step: Step)
    requires Inv(s) && x in s.sessions && o in s.sessions[x].end.ops && s.sessions[x].end.ops[o].pc != E.Finished
    ensures Next(s, step).Some? && !Begins(step)
  {
    hide Inv, E.Inv, Next, E.Next;
    SessionFacts(s, x);
    var e := s.sessions[x].end;
    var p := o;
    if e.ops[o].pc == E.WaitCell && (e.cell.Initialising? || e.cell.Granted?) {
      PermitHolder(e);
      p := e.cell.op;
    }
    match e.ops[p].pc
    case WaitCell => EnterEnabled(e, p); step := LocalEnabled(s, x, E.EnterCell(p));
    case Deleting => ReplyEnabled(e, p); step := LocalEnabled(s, x, E.DeleteReply(p, true, None));
    case CellDone => step := ReleaseEnabled(s, x, p);
    case Taken => step := UnwrapEnabled(s, x, p);
    case Ending => step := EndEnabled(s, x, p);
  }

  lemma EnterEnabled(e: E.State, o: E.OpId)
    requires E.OpIs(e, o, E.WaitCell) && (e.cell.Initialising? || e.cell.Granted? ==> e.cell == E.Granted(o))
    ensures E.Next(e, E.EnterCell(o)).Some?
  {
  }

  lemma ReplyEnabled(e: E.State, o: E.OpId)
    requires E.OpIs(e, o, E.Deleting)
    ensures E.Next(e, E.DeleteReply(o, true, None)).Some?
  {
  }

  lemma PermitHolder(e: E.State)
    requires E.Inv(e) && (e.cell.Initialising? || e.cell.Granted?)
    ensures e.cell.op in e.ops && e.ops[e.cell.op].pc == if e.cell.Granted? then E.WaitCell else E.Deleting
  {
    E.OpFacts(e, e.cell.op);
  }

  lemma LocalEnabled(s: State, x: SessionId, l: E.Step) returns (step: Step)
    requires x in s.sessions && OfSession(s.sessions[x].end, l) && E.Next(s.sessions[x].end, l).Some?
    requires !l.CloneHandle? && !l.StartQuit? && !l.Leak?
    ensures Next(s, step).Some? && !Begins(step)
  {
    hide OfSession, E.Next;
    step := Local(x, l);
  }

  lemma ReleaseEnabled(s: State, x: SessionId, o: E.OpId) returns (step: Step)
    requires Inv(s) && x in s.sessions && E.OpIs(s.sessions[x].end, o, E.CellDone)
    ensures Next(s, step).Some? && !Begins(step)
  {
    hide Inv;
    if D.Taken(x, o) in s.d.refs { HeldInPlace(s, D.Taken(x, o)); }
    step := Release(x, o);
  }

  lemma UnwrapEnabled(s: State, x: SessionId, o: E.OpId) returns (step: Step)
    requires Inv(s) && x in s.sessions && E.OpIs(s.sessions[x].end, o, E.Taken)
    ensures Next(s, step).Some? && !Begins(step)
  {
    hide Inv, D.Unwrap, E.Inv;
    SessionFacts(s, x);
    HeldInPlace(s, D.Taken(x, o));
    step := IntoInner(x, o);
  }

  lemma EndEnabled(s: State, x: SessionId, o: E.OpId) returns (step: Step)
    requires Inv(s) && x in s.sessions && E.OpIs(s.sessions[x].end, o, E.Ending)
    ensures Next(s, step).Some? && !Begins(step)
  {
    hide Inv, D.RunDrop, E.Inv;
    SessionFacts(s, x);
    step := EndProcess(x, o);
  }

  /** A handle can be dropped, and a drop under way can go on, once no `quit` is unfinished. */
  lemma HandleCanMove(s: State, x: SessionId, h: E.HandleId) returns (step: Step)
    requires Inv(s) && x in s.sessions && h in s.sessions[x].end.handles && s.sessions[x].end.handles[h].pc != E.Gone
    requires forall o | o in s.sessions[x].end.ops :: s.sessions[x].end.ops[o].pc == E.Finished
    ensures Next(s, step).Some? && !Begins(step)
  {
    hide Inv, E.Inv, Next;
    SessionFacts(s, x);
    var e := s.sessions[x].end;
    if e.handles[h].pc == E.DroppingFields {
      step := FieldsEnabled(s, x, h);
    } else {
      var l := DropCanMove(e, h);
      step := LocalEnabled(s, x, l);
    }
  }

  lemma DropCanMove(e: E.State, h: E.HandleId) returns (l: E.Step)
    requires E.Inv(e) && h in e.handles && e.handles[h].pc != E.Gone && e.handles[h].pc != E.DroppingFields
    requires forall o | o in e.ops :: e.ops[o].pc == E.Finished
    ensures E.Next(e, l).Some? && OfSession(e, l) && !l.CloneHandle? && !l.StartQuit? && !l.Leak?
  {
    hide E.Inv, E.StartFallback;
    E.HandleFacts(e, h);
    match e.handles[h].pc
    case Live =>
      var o := Fresh(e.ops);
      l := E.BeginDrop(h, o, true);
    case Fallback(_) => l := E.FallbackDone(h);
    case InnerGuardDrop => l := E.InnerDrop(h, 0);
    case InnerHandleDrop(_) => l := E.InnerDrop(h, 0);
  }

  lemma FieldsEnabled(s: State, x: SessionId, h: E.HandleId) returns (step: Step)
    requires Inv(s) && x in s.sessions && E.Is(s.sessions[x].end, h, E.DroppingFields)
    ensures Next(s, step).Some? && !Begins(step)
  {
    hide Inv, D.DropRef, E.AllGone;
    if D.Guard(x) in s.d.refs { HeldInPlace(s, D.Guard(x)); }
    step := DropFields(x, h);
  }

  /** No run gets stuck: unless every launch, `quit` and handle is done, some step is enabled that begins nothing. */
  lemma NeverStuck(steps: seq<Step>) returns (step: Step)
    requires Exec(steps).Some? && !Quiet(Exec(steps).value)
    ensures Next(Exec(steps).value, step).Some? && !Begins(step)
  {
    var s := Exec(steps).value;
    ReachableInv(steps);
    hide Exec, Next, Inv;
    if t :| t in s.d.tasks && s.d.tasks[t].pc != D.Finished {
      if s.d.tasks[t].pc == D.Leased {
        step := LeaseCanStart(s, t);
      } else {
        InvParts(s);
        var l := LaunchCanMove(s.d, t);
        step := Launch(l);
        LaunchEnabled(s, l);
      }
    } else {
      step := SessionCanMove(s);
    }
  }

  lemma LaunchEnabled(s: State, l: D.Step)
    requires D.OfLaunch(l) && D.Next(s.d, l).Some?
    ensures Next(s, Launch(l)).Some?
  {
    hide D.Next;
  }

  lemma SessionCanMove(s: State) returns (step: Step)
    requires Inv(s) && !Quiet(s) && forall t | t in s.d.tasks :: s.d.tasks[t].pc == D.Finished
    ensures Next(s, step).Some? && !Begins(step)
  {
    hide Next, Inv;
    if x, o :| x in s.sessions && o in s.sessions[x].end.ops && s.sessions[x].end.ops[o].pc != E.Finished {
      step := OpCanMove(s, x, o);
    } else {
      var x :| x in s.sessions && !E.AllGone(s.sessions[x].end);
      var h :| h in s.sessions[x].end.handles && s.sessions[x].end.handles[h].pc != E.Gone;
      step := HandleCanMove(s, x, h);
    }
  }

  /** From every reachable state, within as many steps as there are left to do, the system comes to rest: every launch,
      `quit` and handle is done, and every driver has ended and was announced exactly once. */
  lemma {:induction false} ComesToRest(steps: seq<Step>) returns (more: seq<Step>)
    requires Exec(steps).Some?
    ensures |more| <= Rank(Exec(steps).value) && Exec(steps + more).Some? && Quiet(Exec(steps + more).value)
    ensures forall i | 0 <= i < |more| :: !Begins(more[i])
    ensures var d := Exec(steps + more).value.d;
            forall p | p in d.procs :: d.procs[p].fate == D.Ended && multiset(d.trace)[D.DriverShutdown(p)] == 1
    decreases Rank(Exec(steps).value)
  {
    hide Exec, Next, Inv, Quiet, Rank, Begins;
    var s := Exec(steps).value;
    if Quiet(s) {
      more := [];
      assert steps + [] == steps;
      forall p | p in s.d.procs
        ensures s.d.procs[p].fate == D.Ended && multiset(s.d.trace)[D.DriverShutdown(p)] == 1
      {
        NothingLeftRunning(steps, p);
      }
    } else {
      var step := NeverStuck(steps);
      ReachableInv(steps);
      StepShrinks(s, step);
      ExecSnoc(steps, step);
      var rest := ComesToRest(steps + [step]);
      assert steps + [step] + rest == steps + ([step] + rest);
      more := [step] + rest;
    }
  }

  lemma ExecSnoc(steps: seq<Step>, step: Step)
    requires Exec(steps).Some? && Next(Exec(steps).value, step).Some?
    ensures Exec(steps + [step]) == Next(Exec(steps).value, step)
  {
    assert (steps + [step])[..|steps|] == steps;
  }

  /** No run can go on for ever without beginning something: its steps are bounded by what was left to do. */
  lemma {:induction false} RunsAreFinite(steps: seq<Step>, more: seq<Step>)
    requires Exec(steps).Some? && Exec(steps + more).Some? && forall i | 0 <= i < |more| :: !Begins(more[i])
    ensures |more| + Rank(Exec(steps + more).value) <= Rank(Exec(steps).value)
  {
    hide Next, Inv, Rank, Begins;
    if more == [] {
      assert steps + more == steps;
    } else {
      var front, last := more[..|more| - 1], more[|more| - 1];
      assert (steps + more)[..|steps + more| - 1] == steps + front;
      RunsAreFinite(steps, front);
      ReachableInv(steps + front);
      StepShrinks(Exec(steps + front).value, last);
    }
  }
}
