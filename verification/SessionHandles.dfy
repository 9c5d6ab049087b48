/** `SessionHandle`: `quit`, `leak` and `Drop` as they run, on the shared cell updated in place.

    Other calls and drops act between any two atomic actions of a call: what they do is a parameter, of which the enabled
    steps that are not the call's own happen. Every atomic action is proved to be one step of `SessionEnd`,
    so what holds in every run of the step machine holds of the code. */
module SessionHandles {
  import opened Wrappers
  import opened SessionEnd
  import D = Drivers

  /** Where a call awaits: another initialiser of the cell, its own DELETE, or the killed driver. */
  datatype Await = AtCell | AtDelete | AtKill

  /** How a call ends, or that it still waits for another initialiser of the cell. */
  datatype Outcome = Waiting | Cancelled(at: Await) | DeleteFailed | ReleaseFailed | Ended

  function OutcomeOf(wait: D.Wait): Outcome {
    match wait
    case Done => Ended
    case WaitFailed => ReleaseFailed
    case WaitCancelled => Cancelled(AtKill)
  }

  /** Neither a step of op `o` nor one that the drop of handle `h` takes. */
  predicate NotOwn(step: Step, o: OpId, h: HandleId) {
    match step
    case EnterCell(p) => p != o
    case DeleteReply(p, _, _) => p != o
    case CancelQuit(p, _) => p != o
    case Release(p, _) => p != o
    case Unwrapped(p, _) => p != o
    case EndDone(p) => p != o
    case BeginDrop(g, _, _) => g != h
    case FallbackDone(g) => g != h
    case InnerDrop(g, _) => g != h
    case DropFields(g) => g != h
    case _ => true
  }

  /** Is the cell's permit another call's? */
  predicate Held(cell: Cell, o: OpId) {
    (cell.Initialising? || cell.Granted?) && cell.op != o
  }

  /** The cell after op `o` gave its permit back: the permit goes to `next` if that op waits for it. */
  function GivenBack(s: State, o: OpId, next: Option<OpId>): (cell: Cell)
    ensures cell.Uninit? || cell.Granted?
  {
    Returned(if CanPassTo(s, o, next) then next else None)
  }

  /** How the release ends a `quit` on a set cell. */
  function Released(had: bool, last: bool, wait: D.Wait): Outcome {
    if had && last then OutcomeOf(wait) else Ended
  }

  function DeleteOutcome(reply: Option<bool>): Outcome {
    match reply
    case None => Cancelled(AtDelete)
    case Some(ok) => if ok then Ended else DeleteFailed
  }

  function Entered(s: State, o: OpId): State
    requires o in s.ops
  {
    if s.cell.Set? then OpAt(s, o, CellDone) else OpAt(s, o, Deleting).(cell := Initialising(o))
  }

  function Replied(s: State, o: OpId, reply: Option<bool>, next: Option<OpId>): State
    requires o in s.ops
  {
    if reply == Some(true) then OpAt(s, o, CellDone).(cell := Set(Deleted), deleteOks := s.deleteOks + 1)
    else OpAt(s, o, Finished).(cell := GivenBack(s, o, next))
  }

  /** The attempt of an op that nobody disturbs. */
  function TriedAlone(s: State, o: OpId, patient: bool, reply: Option<bool>, next: Option<OpId>): State
    requires o in s.ops
  {
    match s.cell
    case Set(_) => OpAt(s, o, CellDone)
    case Uninit => Replied(s, o, reply, next)
    case _ => if patient then s else OpAt(s, o, Finished)
  }

  /** A `quit` that nobody disturbs, as one transaction. */
  function QuitAlone(s: State, h: HandleId, o: OpId, patient: bool, reply: Option<bool>, next: Option<OpId>): State {
    if s.cell.Initialising? || s.cell.Granted? then
      s.(ops := s.ops[o := Op(ByHandle(h), if patient then WaitCell else Finished)])
    else
      var ended := s.cell == Uninit && reply == Some(true);
      s.(ops := s.ops[o := Op(ByHandle(h), Finished)],
         cell := if s.cell.Set? then s.cell else if ended then Set(Deleted) else GivenBack(s, o, next),
         deleteOks := s.deleteOks + if ended then 1 else 0)
  }

  /** The fallback's `quit`. */
  function FallbackAlone(s: State, h: HandleId, o: OpId, deleted: bool, next: Option<OpId>): State
    requires h in s.handles
  {
    if s.cell.Initialising? || s.cell.Granted? then s
    else
      var ended := s.cell == Uninit && deleted;
      s.(ops := s.ops[o := Op(ByFallback(h), Finished)],
         handles := s.handles[h := s.handles[h].(pc := InnerGuardDrop)],
         cell := if s.cell.Set? then s.cell else if ended then Set(Deleted) else GivenBack(s, o, next),
         deleteOks := s.deleteOks + if ended then 1 else 0)
  }

  /** A drop that nobody disturbs, as one transaction: nothing on a set cell and no DELETE without a runtime; else its
      attempt sets the cell if the DELETE succeeds and gives the permit back if not, or waits for another call. */
  function DropAlone(s: State, h: HandleId, o: OpId, runtime: bool, deleted: bool, next: Option<OpId>): State
    requires h in s.handles
  {
    var attempts := s.handles[h].attempts;
    if s.cell.Set? then s.(handles := s.handles[h := Handle(Gone, attempts)])
    else if !runtime then s.(handles := s.handles[h := Handle(Gone, attempts + 1)])
    else if s.cell.Initialising? || s.cell.Granted?
    then s.(handles := s.handles[h := Handle(Fallback(o), attempts + 1)], ops := s.ops[o := Op(ByFallback(h), WaitCell)])
    else s.(handles := s.handles[h := Handle(Gone, attempts + 1)], ops := s.ops[o := Op(ByFallback(h), Finished)],
            cell := if deleted then Set(Deleted) else GivenBack(s, o, next),
            deleteOks := s.deleteOks + if deleted then 1 else 0)
  }

  /** Nobody else does anything between a call's atomic actions. */
  ghost predicate Quiet(others: nat -> seq<Step>) {
    forall i: nat :: others(i) == []
  }

  predicate IsSuccess(step: Step, o: OpId) {
    step.DeleteReply? && step.op == o && step.ok
  }

  /** Op `o` reported its DELETE successful. */
  ghost predicate Succeeds(steps: seq<Step>, o: OpId) {
    exists i | 0 <= i < |steps| :: IsSuccess(steps[i], o)
  }

  lemma SucceedsSnoc(steps: seq<Step>, step: Step, o: OpId)
    ensures Succeeds(steps + [step], o) <==> Succeeds(steps, o) || IsSuccess(step, o)
  {
    if Succeeds(steps, o) {
      var i :| 0 <= i < |steps| && IsSuccess(steps[i], o);
      assert (steps + [step])[i] == steps[i];
    }
    if IsSuccess(step, o) {
      assert (steps + [step])[|steps|] == step;
    }
  }

  /** The outcome of a `quit` that finds the cell as it is, in terms of what it meets outside. */
  function Undisturbed(cell: Cell, patient: bool, reply: Option<bool>, had: bool, last: bool, wait: D.Wait): Outcome {
    match cell
    case Set(_) => Released(had, last, wait)
    case Uninit => if reply == Some(true) then Released(had, last, wait) else DeleteOutcome(reply)
    case _ => if patient then Waiting else Cancelled(AtCell)
  }

  /** Where the call and the handle are stays as it is, and the cell of a call that has its permit. */
  ghost predicate Same(s: State, s': State, o: OpId, h: HandleId) {
    && (o in s.ops ==> o in s'.ops && s'.ops[o] == s.ops[o])
    && (h in s.handles ==> h in s'.handles && s'.handles[h] == s.handles[h])
    && (HasPermit(s, o) ==> s'.cell == s.cell)
    && (s.cell.Set? ==> s'.cell == s.cell)
  }

  lemma SameReflexive(s: State, o: OpId, h: HandleId)
    ensures Same(s, s, o, h)
  {
  }

  lemma SameTransitive(s: State, s1: State, s2: State, o: OpId, h: HandleId)
    requires Same(s, s1, o, h) && Same(s1, s2, o, h)
    ensures Same(s, s2, o, h)
  {
  }

  lemma OthersLeave(s: State, step: Step, o: OpId, h: HandleId)
    requires Inv(s) && Next(s, step).Some? && NotOwn(step, o, h)
    ensures Same(s, Next(s, step).value, o, h)
  {
    hide Inv, Busy, CanPassTo, Returned;
    match step
    case DeleteReply(p, _, _) => if p in s.ops { OpFacts(s, p); }
    case CancelQuit(p, _) => if p in s.ops { OpFacts(s, p); }
    case _ =>
  }

  lemma GivenBackBy(s: State, s': State, o: OpId, next: Option<OpId>)
    requires forall p | p != o :: (p in s.ops <==> p in s'.ops) && (p in s.ops ==> s.ops[p] == s'.ops[p])
    ensures GivenBack(s, o, next) == GivenBack(s', o, next)
  {
  }

  lemma TriedIs(s: State, o: OpId, patient: bool, reply: Option<bool>, next: Option<OpId>)
    requires o in s.ops
    ensures s.cell.Set? ==> TriedAlone(s, o, patient, reply, next) == Entered(s, o)
    ensures s.cell == Uninit ==> TriedAlone(s, o, patient, reply, next) == Replied(Entered(s, o), o, reply, next)
    ensures s.cell.Initialising? || s.cell.Granted? ==>
              TriedAlone(s, o, patient, reply, next) == if patient then s else OpAt(s, o, Finished)
  {
    GivenBackBy(s, Entered(s, o), o, next);
    hide GivenBack;
    forall pc ensures OpAt(OpAt(s, o, Deleting), o, pc) == OpAt(s, o, pc) {
      assert s.ops[o := s.ops[o].(pc := Deleting)][o := s.ops[o].(pc := pc)] == s.ops[o := s.ops[o].(pc := pc)];
    }
  }

  lemma ReleasedIs(had: bool, last: bool, wait: D.Wait)
    ensures var r := Released(had, last, wait);
            || r.Ended?
            || (r.ReleaseFailed? && had && last && wait == D.WaitFailed)
            || (r == Cancelled(AtKill) && had && last && wait == D.WaitCancelled)
  {
  }

  lemma QuitIs(s: State, h: HandleId, o: OpId, patient: bool, reply: Option<bool>, next: Option<OpId>)
    requires o !in s.ops
    ensures var tried := TriedAlone(s.(ops := s.ops[o := Op(ByHandle(h), WaitCell)]), o, patient, reply, next);
            o in tried.ops
            && QuitAlone(s, h, o, patient, reply, next) == if tried.cell.Set? then OpAt(tried, o, Finished) else tried
  {
    var s1 := s.(ops := s.ops[o := Op(ByHandle(h), WaitCell)]);
    GivenBackBy(s, s1, o, next);
    hide GivenBack;
    forall pc, pc' ensures OpAt(s1, o, pc) == s.(ops := s.ops[o := Op(ByHandle(h), pc)])
                        && OpAt(OpAt(s1, o, pc), o, pc') == OpAt(s1, o, pc') {
      assert s1.ops[o := Op(ByHandle(h), pc)] == s.ops[o := Op(ByHandle(h), pc)];
      assert s1.ops[o := Op(ByHandle(h), pc)][o := Op(ByHandle(h), pc')] == s1.ops[o := Op(ByHandle(h), pc')];
    }
  }

  /** The parts of a drop: its begin, its fallback, and the rest. */
  lemma DropIs(s: State, h: HandleId, o: OpId, runtime: bool, deleted: bool, next: Option<OpId>)
    requires Is(s, h, Live) && o !in s.ops && Next(s, BeginDrop(h, o, runtime)).Some? && !HasPermit(s, o)
    ensures var begun := Next(s, BeginDrop(h, o, runtime)).value;
            && h in begun.handles && !HasPermit(begun, o)
            && (begun.handles[h].pc.Fallback? ==>
                  var tried := FallbackAlone(begun, h, o, deleted, next);
                  && h in tried.handles
                  && DropAlone(s, h, o, runtime, deleted, next) ==
                     if Held(s.cell, o) then tried else HandleAt(tried, h, Gone))
            && (!begun.handles[h].pc.Fallback? ==>
                  DropAlone(s, h, o, runtime, deleted, next) == HandleAt(begun, h, Gone))
  {
    hide GivenBack, Busy;
    var begun := Next(s, BeginDrop(h, o, runtime)).value;
    if !s.cell.Set? && runtime {
      GivenBackBy(s, begun, o, next);
    }
    var attempts := s.handles[h].attempts;
    assert forall pc, pc', n {:trigger Handle(pc, n), Handle(pc', n)} ::
        s.handles[h := Handle(pc, n)][h := Handle(pc', n)] == s.handles[h := Handle(pc', n)];
  }

  class Session {
    var cell: Cell
    var handles: map<HandleId, Handle>
    var ops: map<OpId, Op>
    var deleteOks: nat
    var leakOks: nat
    ghost const first: HandleId
    ghost var steps: seq<Step>

    constructor (h: HandleId)
      ensures Valid() && cell == Uninit && handles == map[h := Handle(Live, 0)] && ops == map[]
    {
      cell, handles, ops, deleteOks, leakOks := Uninit, map[h := Handle(Live, 0)], map[], 0, 0;
      first, steps := h, [];
    }

    function Now(): State
      reads this
    {
      State(cell, handles, ops, deleteOks, leakOks)
    }

    /** The fields are the state after a run of the step machine. */
    ghost predicate Valid()
      reads this
    {
      Exec(first, steps) == Some(Now())
    }

    ghost method Record(step: Step, before: State)
      requires Exec(first, steps) == Some(before) && Next(before, step) == Some(Now())
      modifies this`steps
      ensures Valid() && steps == old(steps) + [step]
      ensures forall o :: Succeeds(steps, o) <==> Succeeds(old(steps), o) || IsSuccess(step, o)
    {
      hide Succeeds, IsSuccess;
      forall o ensures Succeeds(steps + [step], o) <==> Succeeds(steps, o) || IsSuccess(step, o) {
        SucceedsSnoc(steps, step, o);
      }
      assert (steps + [step])[..|steps|] == steps;
      steps := steps + [step];
    }

    method Interfere(o: OpId, h: HandleId, others: seq<Step>)
      requires Valid()
      modifies this
      ensures Valid() && old(steps) <= steps && Same(old(Now()), Now(), o, h)
      ensures Succeeds(steps, o) == Succeeds(old(steps), o)
      ensures others == [] ==> Now() == old(Now())
    {
      hide Succeeds, Exec, Next, Inv, Same;
      SameReflexive(Now(), o, h);
      for i := 0 to |others|
        invariant Valid() && old(steps) <= steps && Succeeds(steps, o) == Succeeds(old(steps), o) && Same(old(Now()), Now(), o, h)
        invariant others == [] ==> Now() == old(Now())
      {
        ghost var before := Now();
        var after := Next(Now(), others[i]);
        if NotOwn(others[i], o, h) && after.Some? {
          ReachableInv(first, steps);
          OthersLeave(before, others[i], o, h);
          SameTransitive(old(Now()), before, after.value, o, h);
          cell, handles, ops := after.value.cell, after.value.handles, after.value.ops;
          deleteOks, leakOks := after.value.deleteOks, after.value.leakOks;
          Record(others[i], before);
        }
      }
    }

    /** `get_or_try_init`: wait for the permit, then DELETE; a failed or cancelled DELETE gives it back. A call that
        is not `patient` is dropped when it has to wait for the permit. */
    method GetOrTryInit(o: OpId, h: HandleId, others: nat -> seq<Step>, patient: bool, reply: Option<bool>,
                        next: Option<OpId>)
      returns (r: Outcome)
      requires Valid() && o in ops && ops[o].pc == WaitCell && h in handles
      requires !patient || reply.None? ==> ops[o].caller.ByHandle?
      modifies this
      ensures Valid() && old(steps) <= steps
      ensures Succeeds(steps, o) ==> reply == Some(true) || Succeeds(old(steps), o)
      ensures o in ops && ops[o].caller == old(ops)[o].caller && h in handles && handles[h] == old(handles)[h]
      ensures r.Waiting? || (r == Cancelled(AtCell) && !patient) || r == Cancelled(AtDelete) || r.DeleteFailed? || r.Ended?
      ensures if r.Waiting? then patient && ops[o].pc == WaitCell
              else ops[o].pc == if r.Ended? then CellDone else Finished
      ensures r.Waiting? || r == Cancelled(AtCell) ==> Held(cell, o)
      ensures r.Ended? ==> cell.Set?
      ensures r == Cancelled(AtDelete) ==> reply.None? && cell == GivenBack(Now(), o, next)
      ensures r.DeleteFailed? ==> reply == Some(false) && cell == GivenBack(Now(), o, next)
      ensures old(cell).Set? ==> r.Ended? && cell == old(cell)
      ensures others(0) == [] && Held(old(cell), o) ==> r == if patient then Waiting else Cancelled(AtCell)
      ensures others(0) == [] && !Held(old(cell), o) && !old(cell).Set? ==> r == DeleteOutcome(reply)
      ensures others(0) == [] && others(1) == [] && !HasPermit(old(Now()), o) ==>
                Now() == TriedAlone(old(Now()), o, patient, reply, next)
    {
      hide Succeeds, Exec, Inv, Next, GivenBack, TriedAlone, Entered;
      TriedIs(Now(), o, patient, reply, next);
      var early := AwaitPermit(o, h, others(0), patient);
      if early.Some? {
        return early.value;
      }
      Interfere(o, h, others(1));
      r := DeleteSession(o, reply, next);
    }

    /** Acquiring the permit: a set cell needs none, and while another call has it this one waits or is dropped. */
    method AwaitPermit(o: OpId, h: HandleId, others: seq<Step>, patient: bool) returns (r: Option<Outcome>)
      requires Valid() && o in ops && ops[o].pc == WaitCell && h in handles && (!patient ==> ops[o].caller.ByHandle?)
      modifies this
      ensures Valid() && old(steps) <= steps && Succeeds(steps, o) == Succeeds(old(steps), o)
      ensures o in ops && ops[o].caller == old(ops)[o].caller && h in handles && handles[h] == old(handles)[h]
      ensures match r
              case None => cell == Initialising(o) && ops[o].pc == Deleting && !old(cell).Set?
              case Some(Ended) => cell.Set? && ops[o].pc == CellDone && (old(cell).Set? ==> cell == old(cell))
              case Some(Waiting) => patient && Held(cell, o) && ops[o].pc == WaitCell && !old(cell).Set?
              case Some(how) => how == Cancelled(AtCell) && !patient && Held(cell, o) && ops[o].pc == Finished && !old(cell).Set?
      ensures others == [] ==>
                if Held(old(cell), o)
                then r == Some(if patient then Waiting else Cancelled(AtCell))
                     && Now() == if patient then old(Now()) else OpAt(old(Now()), o, Finished)
                else r == (if old(cell).Set? then Some(Ended) else None) && Now() == Entered(old(Now()), o)
    {
      hide Succeeds, Exec, Inv, Next;
      Interfere(o, h, others);
      WaitsForOther(first, steps, o);
      if Held(cell, o) {
        if patient {
          return Some(Waiting);
        }
        StopWaiting(o);
        return Some(Cancelled(AtCell));
      }
      Enter(o);
      r := if cell.Set? then Some(Ended) else None;
    }

    /** A call that finds the cell set is done with it, one that gets the permit initialises it. */
    method Enter(o: OpId)
      requires Valid() && o in ops && ops[o].pc == WaitCell && !Held(cell, o) && cell != Initialising(o)
      modifies this
      ensures Valid() && old(steps) <= steps && o in old(ops) && Now() == Entered(old(Now()), o)
      ensures Succeeds(steps, o) == Succeeds(old(steps), o)
    {
      hide Succeeds;
      ghost var before := Now();
      ops := ops[o := ops[o].(pc := if cell.Set? then CellDone else Deleting)];
      cell := if cell.Set? then cell else Initialising(o);
      Record(EnterCell(o), before);
    }

    /** The DELETE's reply, or the end of a call that is dropped while it waits for it. */
    method DeleteSession(o: OpId, reply: Option<bool>, next: Option<OpId>) returns (r: Outcome)
      requires Valid() && o in ops && ops[o].pc == Deleting && (reply.None? ==> ops[o].caller.ByHandle?)
      modifies this
      ensures Valid() && old(steps) <= steps && o in old(ops)
      ensures Succeeds(steps, o) ==> reply == Some(true) || Succeeds(old(steps), o)
      ensures r == DeleteOutcome(reply) && Now() == Replied(old(Now()), o, reply, next)
      ensures !r.Ended? ==> cell == GivenBack(Now(), o, next)
    {
      hide Succeeds, Exec, Inv, GivenBack;
      if reply.Some? && reply.value {
        ghost var before := Now();
        cell, deleteOks, r := Set(Deleted), deleteOks + 1, Ended;
        ops := ops[o := ops[o].(pc := CellDone)];
        Record(DeleteReply(o, true, None), before);
      } else {
        r := DeleteOutcome(reply);
        GiveBack(o, reply.None?, next);
      }
    }

    /** A DELETE that failed or was cancelled: dropping the permit assigns it to a waiting call, if there is one. */
    method GiveBack(o: OpId, cancelled: bool, next: Option<OpId>)
      requires Valid() && o in ops && ops[o].pc == Deleting && (cancelled ==> ops[o].caller.ByHandle?)
      modifies this
      ensures Valid() && old(steps) <= steps && Now() == old(Now()).(cell := cell, ops := ops)
      ensures Succeeds(steps, o) == Succeeds(old(steps), o)
      ensures ops == old(ops)[o := old(ops)[o].(pc := Finished)] && cell == GivenBack(old(Now()), o, next) == GivenBack(Now(), o, next)
    {
      hide Succeeds, Exec, Inv;
      ghost var before := Now();
      HoldsPermit(first, steps, o);
      var to := if CanPassTo(Now(), o, next) then next else None;
      cell := Returned(to);
      ops := ops[o := ops[o].(pc := Finished)];
      Record(if cancelled then CancelQuit(o, to) else DeleteReply(o, false, to), before);
    }

    /** `leak`: it succeeds exactly on an uninitialised cell whose permit is free, and sets nothing but the cell. */
    method Leak(h: HandleId) returns (ok: bool)
      requires Valid() && Is(Now(), h, Live)
      modifies this
      ensures Valid() && old(steps) <= steps && ok == (old(cell) == Uninit)
      ensures Now() == if ok then old(Now()).(cell := Set(Leaked), leakOks := 1) else old(Now())
      ensures ok ==> deleteOks == 0
    {
      hide Succeeds;
      ghost var before := Now();
      ok := cell == Uninit;
      if ok {
        cell, leakOks := Set(Leaked), leakOks + 1;
      }
      Record(Step.Leak(h), before);
      OneSuccessfulEnd(first, steps);
    }

    /** Once the cell is set: the guard's `release`, which may hold a reference, and that one be the last. Then
        the driver is shut down, and waiting for its killed child may fail or be cancelled. */
    method ReleaseGuard(o: OpId, h: HandleId, others: nat -> seq<Step>, had: bool, last: bool, wait: D.Wait)
      returns (r: Outcome)
      requires Valid() && o in ops && ops[o].pc == CellDone && cell.Set? && (had ==> ops[o].caller.ByHandle?)
      modifies this
      ensures Valid() && old(steps) <= steps && cell == old(cell) && o in ops && ops[o].pc == Finished
      ensures Succeeds(steps, o) == Succeeds(old(steps), o)
      ensures h in old(handles) ==> h in handles && handles[h] == old(handles)[h]
      ensures r == Released(had, last, wait)
      ensures Quiet(others) ==> Now() == OpAt(old(Now()), o, Finished)
    {
      hide Succeeds, Exec, Inv;
      Interfere(o, h, others(2));
      AfterCell(o, had);
      r := Ended;
      if had {
        Interfere(o, h, others(3));
        AfterTake(o, last);
        if last {
          Interfere(o, h, others(4));
          AfterEnd(o, wait);
          r := OutcomeOf(wait);
        }
      }
    }

    method AfterCell(o: OpId, had: bool)
      requires Valid() && o in ops && ops[o].pc == CellDone && (had ==> ops[o].caller.ByHandle?)
      modifies this
      ensures Valid() && old(steps) <= steps && o in old(ops) && Now() == old(Now()).(ops := ops)
      ensures Succeeds(steps, o) == Succeeds(old(steps), o)
      ensures ops == old(ops)[o := old(ops)[o].(pc := if had then Taken else Finished)]
    {
      hide Succeeds;
      ghost var before := Now();
      ops := ops[o := ops[o].(pc := if had then Taken else Finished)];
      Record(Release(o, had), before);
    }

    method AfterTake(o: OpId, last: bool)
      requires Valid() && o in ops && ops[o].pc == Taken
      modifies this
      ensures Valid() && old(steps) <= steps && o in old(ops) && Now() == old(Now()).(ops := ops)
      ensures Succeeds(steps, o) == Succeeds(old(steps), o)
      ensures ops == old(ops)[o := old(ops)[o].(pc := if last then Ending else Finished)]
    {
      hide Succeeds;
      ghost var before := Now();
      ops := ops[o := ops[o].(pc := if last then Ending else Finished)];
      Record(Unwrapped(o, last), before);
    }

    method AfterEnd(o: OpId, wait: D.Wait)
      requires Valid() && cell.Set? && o in ops && ops[o].pc == Ending && (wait == D.WaitCancelled ==> ops[o].caller.ByHandle?)
      modifies this
      ensures Valid() && old(steps) <= steps && o in old(ops) && Now() == old(Now()).(ops := ops)
      ensures Succeeds(steps, o) == Succeeds(old(steps), o)
      ensures ops == old(ops)[o := old(ops)[o].(pc := Finished)]
    {
      hide Succeeds;
      ghost var before := Now();
      ops := ops[o := ops[o].(pc := Finished)];
      Record(if wait == D.WaitCancelled then CancelQuit(o, None) else EndDone(o), before);
    }

    /** `quit`: initialise the cell by a DELETE, then release the driver. The cell is set exactly when the call
        got as far as the release: a call that fails or is cancelled there leaves an ended session behind, which
        cannot be ended again, while a failed or cancelled DELETE leaves the cell for a retry. A call on a set cell and
        one whose DELETE succeeds report a failure exactly when they wait in vain for the driver they were last to hold. */
    method Quit(h: HandleId, o: OpId, others: nat -> seq<Step>, patient: bool, reply: Option<bool>,
                next: Option<OpId>, had: bool, last: bool, wait: D.Wait)
      returns (r: Outcome)
      requires Valid() && Is(Now(), h, Live) && o !in ops
      modifies this
      ensures Valid() && old(steps) <= steps && Is(Now(), h, Live) && o in ops
      ensures Succeeds(steps, o) ==> reply == Some(true) || Succeeds(old(steps), o)
      ensures deleteOks + leakOks == if cell.Set? then 1 else 0
      ensures cell.Set? <==> r.Ended? || r.ReleaseFailed? || r == Cancelled(AtKill)
      ensures cell == Uninit ==> r.DeleteFailed? || r == Cancelled(AtDelete)
      ensures r.DeleteFailed? || r == Cancelled(AtDelete) ==> cell == GivenBack(Now(), o, next)
      ensures r.Waiting? || r == Cancelled(AtCell) ==> Held(cell, o)
      ensures (r.ReleaseFailed? ==> had && last && wait == D.WaitFailed) && (r.Waiting? ==> patient)
      ensures (r.DeleteFailed? ==> reply == Some(false)) && (r == Cancelled(AtKill) ==> wait == D.WaitCancelled)
      ensures !r.Waiting? ==> ops[o].pc == Finished
      ensures cell.Set? ==> r == Released(had, last, wait)
      ensures reply == Some(true) && !r.Waiting? && r != Cancelled(AtCell) ==> r == Released(had, last, wait)
      ensures old(cell).Set? ==> cell == old(cell) && r == Released(had, last, wait)
      ensures others(0) == [] ==> r == Undisturbed(old(cell), patient, reply, had, last, wait)
      ensures Quiet(others) ==> Now() == QuitAlone(old(Now()), h, o, patient, reply, next)
    {
      hide Succeeds, Exec, Inv, Next, GivenBack, TriedAlone, QuitAlone, OpAt, Released, Busy, IsSuccess, HasPermit;
      ReleasedIs(had, last, wait);
      QuitIs(Now(), h, o, patient, reply, next);
      r := StartAndTry(h, o, others, patient, reply, next);
      if r.Ended? {
        r := ReleaseGuard(o, h, others, had, last, wait);
      }
      CellCounts(first, steps);
    }

    /** A `quit` up to its release. */
    method StartAndTry(h: HandleId, o: OpId, others: nat -> seq<Step>, patient: bool, reply: Option<bool>,
                       next: Option<OpId>)
      returns (r: Outcome)
      requires Valid() && Is(Now(), h, Live) && o !in ops
      modifies this
      ensures Valid() && old(steps) <= steps && Is(Now(), h, Live) && o in ops && ops[o].caller == ByHandle(h)
      ensures Succeeds(steps, o) ==> reply == Some(true) || Succeeds(old(steps), o)
      ensures match r
              case Waiting => patient && Held(cell, o)
              case Ended => cell.Set? && ops[o].pc == CellDone
              case DeleteFailed => reply == Some(false) && cell == GivenBack(Now(), o, next)
              case Cancelled(at) =>
                (at == AtCell && Held(cell, o)) || (at == AtDelete && reply == None && cell == GivenBack(Now(), o, next))
              case ReleaseFailed => false
      ensures !r.Waiting? && !r.Ended? ==> ops[o].pc == Finished
      ensures old(cell).Set? ==> r.Ended? && cell == old(cell)
      ensures others(0) == [] ==>
                r == if old(cell).Set? then Ended else if old(cell) == Uninit then DeleteOutcome(reply)
                     else if patient then Waiting else Cancelled(AtCell)
      ensures Quiet(others) ==>
                Now() == TriedAlone(old(Now()).(ops := old(ops)[o := Op(ByHandle(h), WaitCell)]), o, patient, reply, next)
    {
      hide Succeeds, Exec, Inv, Next, GivenBack, TriedAlone, OpAt;
      NoPermitYet(first, steps, o);
      StartCall(h, o);
      r := GetOrTryInit(o, h, others, patient, reply, next);
    }

    /** A call dropped while it waits for the cell. */
    method StopWaiting(o: OpId)
      requires Valid() && o in ops && ops[o].pc == WaitCell && ops[o].caller.ByHandle? && Held(cell, o)
      modifies this
      ensures Valid() && old(steps) <= steps && o in old(ops) && Now() == old(Now()).(ops := ops)
      ensures Succeeds(steps, o) == Succeeds(old(steps), o)
      ensures ops == old(ops)[o := old(ops)[o].(pc := Finished)]
    {
      hide Succeeds;
      ghost var before := Now();
      ops := ops[o := ops[o].(pc := Finished)];
      Record(CancelQuit(o, None), before);
    }

    method StartCall(h: HandleId, o: OpId)
      requires Valid() && Is(Now(), h, Live) && o !in ops
      modifies this
      ensures Valid() && old(steps) <= steps && ops == old(ops)[o := Op(ByHandle(h), WaitCell)]
      ensures Succeeds(steps, o) == Succeeds(old(steps), o)
      ensures Now() == old(Now()).(ops := ops)
    {
      hide Succeeds;
      ghost var before := Now();
      ops := ops[o := Op(ByHandle(h), WaitCell)];
      Record(StartQuit(h, o), before);
    }

    /** `Drop`: nothing to do on a set cell, else one fallback `quit` of an inner handle without a guard,
        whose own drop then sees an initialised cell. It blocks only on another call that has the cell's permit. */
    method Drop(h: HandleId, o: OpId, others: nat -> seq<Step>, runtime: bool, deleted: bool, next: Option<OpId>)
      returns (blocked: bool)
      requires Valid() && Is(Now(), h, Live) && !Busy(Now(), h) && o !in ops
      modifies this
      ensures Valid() && old(steps) <= steps && h in handles
      ensures Succeeds(steps, o) ==> deleted || Succeeds(old(steps), o)
      ensures !blocked ==> handles[h].pc == Gone && (handles[h].attempts == 0 ==> cell.Set?) && handles[h].attempts <= 1
      ensures !blocked && runtime && deleted ==> cell.Set?
      ensures blocked ==> Held(cell, o) && runtime && !old(cell).Set?
      ensures others(0) == [] ==> blocked == (runtime && Held(old(cell), o))
      ensures Quiet(others) ==> Now() == DropAlone(old(Now()), h, o, runtime, deleted, next)
    {
      hide Succeeds, Exec, Inv, Next, GivenBack, FallbackAlone, DropAlone;
      ghost var s := Now();
      NoPermitYet(first, steps, o);
      StartDrop(h, o, runtime);
      DropIs(s, h, o, runtime, deleted, next);
      if handles[h].pc.Fallback? {
        blocked := RunFallback(h, o, others, deleted, next);
        if blocked {
          return;
        }
      }
      EndDrop(h, o, others);
      blocked := false;
    }

    /** The inner handle's drop, if there was one, then the fields'. */
    method EndDrop(h: HandleId, o: OpId, others: nat -> seq<Step>)
      requires Valid() && h in handles && (handles[h].pc == InnerGuardDrop || handles[h].pc == DroppingFields)
      modifies this
      ensures Valid() && old(steps) <= steps && h in handles && handles[h].pc == Gone
      ensures (handles[h].attempts == 0 ==> cell.Set?) && handles[h].attempts <= 1 && (old(cell).Set? ==> cell == old(cell))
      ensures Succeeds(steps, o) == Succeeds(old(steps), o)
      ensures Quiet(others) ==> Now() == HandleAt(old(Now()), h, Gone)
    {
      hide Succeeds, Exec, Inv, Next;
      if handles[h].pc == InnerGuardDrop {
        DropInner(h, o, others(6));
      }
      Interfere(o, h, others(7));
      DropLast(h);
      DroppedOnce(first, steps, h);
    }

    /** The cleanup thread: `quit` on the inner handle, which has no guard to release. */
    method RunFallback(h: HandleId, o: OpId, others: nat -> seq<Step>, deleted: bool, next: Option<OpId>)
      returns (blocked: bool)
      requires Valid() && h in handles && handles[h].pc == Fallback(o) && o in ops && ops[o] == Op(ByFallback(h), WaitCell)
      modifies this
      ensures Valid() && old(steps) <= steps && h in handles
      ensures Succeeds(steps, o) ==> deleted || Succeeds(old(steps), o)
      ensures blocked ==> Held(cell, o) && !old(cell).Set?
      ensures !blocked ==> handles[h].pc == InnerGuardDrop && (deleted ==> cell.Set?)
      ensures others(0) == [] ==> blocked == Held(old(cell), o)
      ensures Quiet(others) && !HasPermit(old(Now()), o) ==> Now() == FallbackAlone(old(Now()), h, o, deleted, next)
    {
      hide Succeeds, Exec, Inv, Next, GivenBack;
      var r := GetOrTryInit(o, h, others, true, Some(deleted), next);
      if r.Waiting? {
        return true;
      }
      if r.Ended? {
        r := ReleaseGuard(o, h, others, false, false, D.Done);
      }
      Interfere(o, h, others(5));
      LeaveFallback(h);
      blocked := false;
    }

    method StartDrop(h: HandleId, o: OpId, runtime: bool)
      requires Valid() && Is(Now(), h, Live) && !Busy(Now(), h) && o !in ops
      modifies this
      ensures Valid() && old(steps) <= steps && h in handles && cell == old(cell)
      ensures Succeeds(steps, o) == Succeeds(old(steps), o)
      ensures handles[h].pc == if cell.Set? then DroppingFields else if runtime then Fallback(o) else InnerGuardDrop
      ensures handles[h].pc.Fallback? ==> o in ops && ops[o] == Op(ByFallback(h), WaitCell)
      ensures Next(old(Now()), BeginDrop(h, o, runtime)) == Some(Now())
    {
      hide Succeeds;
      ghost var before := Now();
      if cell.Set? {
        handles := handles[h := handles[h].(pc := DroppingFields)];
      } else if runtime {
        handles := handles[h := Handle(Fallback(o), handles[h].attempts + 1)];
        ops := ops[o := Op(ByFallback(h), WaitCell)];
      } else {
        handles := handles[h := Handle(InnerGuardDrop, handles[h].attempts + 1)];
      }
      Record(BeginDrop(h, o, runtime), before);
    }

    method LeaveFallback(h: HandleId)
      requires Valid() && h in handles && handles[h].pc.Fallback? && OpIs(Now(), handles[h].pc.op, Finished)
      modifies this
      ensures Valid() && old(steps) <= steps && (forall o :: Succeeds(steps, o) == Succeeds(old(steps), o)) && h in old(handles)
      ensures Now() == HandleAt(old(Now()), h, InnerGuardDrop)
    {
      hide Succeeds;
      ghost var before := Now();
      handles := handles[h := handles[h].(pc := InnerGuardDrop)];
      Record(FallbackDone(h), before);
    }

    /** `SessionDropGuard::drop` replaces an uninitialised cell, so the inner handle's drop returns at once. */
    method DropInner(h: HandleId, o: OpId, others: seq<Step>)
      requires Valid() && h in handles && handles[h].pc == InnerGuardDrop
      modifies this
      ensures Valid() && old(steps) <= steps && h in handles && handles[h].pc == DroppingFields
      ensures Succeeds(steps, o) == Succeeds(old(steps), o)
      ensures old(cell).Set? ==> cell == old(cell)
      ensures others == [] ==> Now() == HandleAt(old(Now()), h, DroppingFields)
    {
      hide Succeeds, Exec, Inv;
      ghost var before := Now();
      var quit := if cell.Set? then SharedCell else AlwaysInit;
      handles := handles[h := handles[h].(pc := InnerHandleDrop(quit))];
      Record(InnerDrop(h, o), before);
      Interfere(o, h, others);
      before := Now();
      handles := handles[h := handles[h].(pc := DroppingFields)];
      Record(InnerDrop(h, o), before);
    }

    method DropLast(h: HandleId)
      requires Valid() && h in handles && handles[h].pc == DroppingFields
      modifies this
      ensures Valid() && old(steps) <= steps && (forall o :: Succeeds(steps, o) == Succeeds(old(steps), o)) && h in old(handles)
      ensures Now() == HandleAt(old(Now()), h, Gone)
    {
      hide Succeeds;
      ghost var before := Now();
      handles := handles[h := handles[h].(pc := Gone)];
      Record(DropFields(h), before);
    }
  }

  /** `quit` may report an error although the session has ended: its DELETE succeeded and the wait for the killed driver
      failed. Then nothing is left to retry: another `quit` succeeds without a DELETE, and `leak` fails. */
  method EndedThoughReported() returns (r: Outcome, again: Outcome, leaked: bool, deletes: nat)
    ensures r == ReleaseFailed && again == Ended && !leaked && deletes == 1
  {
    hide Exec, Next, Inv;
    var session := new Session(0);
    r := session.Quit(0, 0, _ => [], true, Some(true), None, true, true, D.WaitFailed);
    again := session.Quit(0, 1, _ => [], true, None, None, false, false, D.Done);
    leaked := session.Leak(0);
    deletes := session.deleteOks;
    OneSuccessfulEnd(session.first, session.steps);
  }

  /** A waiting call is not the initialiser itself. */
  lemma WaitsForOther(first: HandleId, steps: seq<Step>, o: OpId)
    requires Exec(first, steps).Some? && OpIs(Exec(first, steps).value, o, WaitCell)
    ensures Exec(first, steps).value.cell != Initialising(o)
  {
    ReachableInv(first, steps);
    OpFacts(Exec(first, steps).value, o);
    hide Inv, Exec;
  }

  lemma NoPermitYet(first: HandleId, steps: seq<Step>, o: OpId)
    requires Exec(first, steps).Some? && o !in Exec(first, steps).value.ops
    ensures !HasPermit(Exec(first, steps).value, o)
  {
    ReachableInv(first, steps);
  }

  lemma HoldsPermit(first: HandleId, steps: seq<Step>, o: OpId)
    requires Exec(first, steps).Some? && OpIs(Exec(first, steps).value, o, Deleting)
    ensures Exec(first, steps).value.cell == Initialising(o)
  {
    ReachableInv(first, steps);
    OpFacts(Exec(first, steps).value, o);
    hide Inv, Exec;
  }

  lemma CellCounts(first: HandleId, steps: seq<Step>)
    requires Exec(first, steps).Some?
    ensures var s := Exec(first, steps).value; s.deleteOks + s.leakOks == if s.cell.Set? then 1 else 0
  {
    ReachableInv(first, steps);
    EndsAtMostOnce(Exec(first, steps).value);
    hide *;
  }

  lemma DroppedOnce(first: HandleId, steps: seq<Step>, h: HandleId)
    requires Exec(first, steps).Some?
    requires var s := Exec(first, steps).value; h in s.handles && s.handles[h].pc == Gone
    ensures var s := Exec(first, steps).value; s.handles[h].attempts <= 1 && (s.handles[h].attempts == 0 ==> s.cell.Set?)
  {
    ReachableInv(first, steps);
    HandleFacts(Exec(first, steps).value, h);
    hide Inv, Exec;
  }
}
