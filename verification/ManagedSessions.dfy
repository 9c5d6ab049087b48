/** Managed sessions: the driver registry and the end protocol of every session, run together.

    A launch turns its lease into the guard of a new session. `quit` releases the guard's
    reference once the cell is set; the last handle to go drops the guard with whatever
    reference it still holds. */
module ManagedSessions {
  import opened Wrappers
  import D = Drivers
  import E = SessionEnd

  type SessionId = nat

  /** `key` is what the launch of the session asked for. */
  datatype Managed = Managed(proc: D.DriverId, key: D.DriverKey, end: E.State)
  datatype State = State(d: D.State, sessions: map<SessionId, Managed>)

  const INIT := State(D.INIT, map[])

  datatype Step =
    | Launch(launch: D.Step)
    | StartSession(task: D.TaskId, session: SessionId, handle: E.HandleId)
    | Local(session: SessionId, step: E.Step)
    | Release(session: SessionId, op: E.OpId)
    | IntoInner(session: SessionId, op: E.OpId)
    | KillChild(session: SessionId, op: E.OpId)
    | EndProcess(session: SessionId, op: E.OpId)
    | CancelRelease(session: SessionId, op: E.OpId)
    | DropFields(session: SessionId, handle: E.HandleId)

  /** The end-protocol steps that do not touch the guard. */
  predicate OfSession(s: E.State, step: E.Step) {
    match step
    case CloneHandle(_, _) => true
    case StartQuit(_, _) => true
    case EnterCell(_) => true
    case DeleteReply(_, _, _) => true
    case Leak(_) => true
    case BeginDrop(_, _, _) => true
    case FallbackDone(_) => true
    case InnerDrop(_, _) => true
    case CancelQuit(o, _) => o in s.ops && s.ops[o].pc != E.Taken && s.ops[o].pc != E.Ending
    case _ => false
  }

  /** One step of the registry and one of session `x`, taken together. */
  function Both(s: State, x: SessionId, d: Option<D.State>, e: Option<E.State>): Option<State>
    requires x in s.sessions
  {
    if d.None? || e.None? then None
    else Some(State(d.value, s.sessions[x := s.sessions[x].(end := e.value)]))
  }

  function ReleaseStep(s: State, x: SessionId, o: E.OpId): Option<State>
    requires x in s.sessions
  {
    var e := s.sessions[x].end;
    if o in e.ops && e.ops[o].caller.ByHandle? && D.Guard(x) in s.d.refs
    then Both(s, x, D.Next(s.d, D.Take(x, o)), E.Next(e, E.Release(o, true)))
    else Both(s, x, Some(s.d), E.Next(e, E.Release(o, false)))
  }

  function IntoInnerStep(s: State, x: SessionId, o: E.OpId): Option<State>
    requires x in s.sessions
  {
    if !D.Droppable(s.d, D.Taken(x, o)) then None
    else
      var last := s.d.procs[s.d.refs[D.Taken(x, o)]].strong == 1;
      Both(s, x, D.Next(s.d, D.IntoInner(x, o)), E.Next(s.sessions[x].end, E.Unwrapped(o, last)))
  }

  function CancelReleaseStep(s: State, x: SessionId, o: E.OpId): Option<State>
    requires x in s.sessions
  {
    var m := s.sessions[x];
    if E.OpIs(m.end, o, E.Taken) then Both(s, x, D.Next(s.d, D.DropTaken(x, o)), E.Next(m.end, E.CancelQuit(o, None)))
    else if E.OpIs(m.end, o, E.Ending)
    then Both(s, x, D.Next(s.d, D.DropOwned(m.proc)), E.Next(m.end, E.CancelQuit(o, None)))
    else None
  }

  function DropFieldsStep(s: State, x: SessionId, h: E.HandleId): Option<State>
    requires x in s.sessions
  {
    match E.Next(s.sessions[x].end, E.DropFields(h))
    case None => None
    case Some(e) =>
      if E.AllGone(e) && D.Guard(x) in s.d.refs
      then Both(s, x, D.Next(s.d, D.DropGuard(x)), Some(e))
      else Both(s, x, Some(s.d), Some(e))
  }

  function Next(s: State, step: Step): Option<State> {
    match step
    case Launch(step) =>
      if !D.OfLaunch(step) then None
      else (match D.Next(s.d, step) case None => None case Some(d) => Some(s.(d := d)))
    case StartSession(t, x, h) =>
      if x in s.sessions || D.Lease(t) !in s.d.refs || t !in s.d.tasks then None
      else (match D.Next(s.d, D.ToGuard(t, x))
            case None => None
            case Some(d) => Some(State(d, s.sessions[x := Managed(s.d.refs[D.Lease(t)], s.d.tasks[t].key, E.Init(h))])))
    case Local(x, step) =>
      if x !in s.sessions || !OfSession(s.sessions[x].end, step) then None
      else Both(s, x, Some(s.d), E.Next(s.sessions[x].end, step))
    case Release(x, o) => if x !in s.sessions then None else ReleaseStep(s, x, o)
    case IntoInner(x, o) => if x !in s.sessions then None else IntoInnerStep(s, x, o)
    case KillChild(x, o) =>
      if x !in s.sessions || !E.OpIs(s.sessions[x].end, o, E.Ending) then None
      else Both(s, x, D.Next(s.d, D.KillOwned(s.sessions[x].proc)), Some(s.sessions[x].end))
    case EndProcess(x, o) =>
      if x !in s.sessions then None
      else Both(s, x, D.Next(s.d, D.DropOwned(s.sessions[x].proc)), E.Next(s.sessions[x].end, E.EndDone(o)))
    case CancelRelease(x, o) => if x !in s.sessions then None else CancelReleaseStep(s, x, o)
    case DropFields(x, h) => if x !in s.sessions then None else DropFieldsStep(s, x, h)
  }

  function Exec(steps: seq<Step>): Option<State> {
    if steps == [] then Some(INIT)
    else match Exec(steps[..|steps| - 1])
      case None => None
      case Some(s) => Next(s, steps[|steps| - 1])
  }

  // ----- the invariant -----

  /** A reference outside the launches belongs to a session, or to a release in progress on one. */
  ghost predicate RefOk(sessions: map<SessionId, Managed>, h: D.Holder, p: D.DriverId) {
    match h
    case Guard(x) => x in sessions && sessions[x].proc == p && !E.AllGone(sessions[x].end)
    case Taken(x, o) => x in sessions && sessions[x].proc == p && E.OpIs(sessions[x].end, o, E.Taken)
    case _ => true
  }

  ghost predicate RefsOk(refs: map<D.Holder, D.DriverId>, sessions: map<SessionId, Managed>) {
    forall h | h in refs :: RefOk(sessions, h, refs[h])
  }

  /** A guard without its reference belongs to a session whose end was attempted; an op that
      took the reference still has it, or owns the process it was the last reference to. */
  ghost predicate SessionOk(refs: map<D.Holder, D.DriverId>, procs: map<D.DriverId, D.Process>,
                            x: SessionId, m: Managed)
  {
    && E.Inv(m.end) && m.proc in procs
    && (D.Guard(x) !in refs ==> E.EndAttempted(m.end))
    && (forall o | o in m.end.ops ::
          && (m.end.ops[o].pc == E.Taken ==> D.Taken(x, o) in refs)
          && (m.end.ops[o].pc == E.Ending ==> procs[m.proc].fate == D.OwnedBy(D.Taken(x, o))))
  }

  ghost predicate SessionsOk(refs: map<D.Holder, D.DriverId>, procs: map<D.DriverId, D.Process>,
                             sessions: map<SessionId, Managed>)
  {
    forall x | x in sessions :: SessionOk(refs, procs, x, sessions[x])
  }

  ghost predicate OwnerOk(sessions: map<SessionId, Managed>, p: D.DriverId, proc: D.Process) {
    proc.fate.OwnedBy? ==>
      && proc.fate.holder.Taken?
      && proc.fate.holder.session in sessions
      && sessions[proc.fate.holder.session].proc == p
      && E.OpIs(sessions[proc.fate.holder.session].end, proc.fate.holder.op, E.Ending)
  }

  ghost predicate OwnersOk(procs: map<D.DriverId, D.Process>, sessions: map<SessionId, Managed>) {
    forall p | p in procs :: OwnerOk(sessions, p, procs[p])
  }

  ghost predicate Inv(s: State) {
    && D.Inv(s.d)
    && RefsOk(s.d.refs, s.sessions)
    && SessionsOk(s.d.refs, s.d.procs, s.sessions)
    && OwnersOk(s.d.procs, s.sessions)
  }

  // ----- a step of session `x` leaves the others alone -----

  predicate Of(x: SessionId, h: D.Holder) {
    match h
    case Guard(y) => y == x
    case Taken(y, _) => y == x
    case _ => false
  }

  ghost predicate RefsElsewhere(refs: map<D.Holder, D.DriverId>, refs': map<D.Holder, D.DriverId>, x: SessionId) {
    forall h: D.Holder | (h.Guard? || h.Taken?) && !Of(x, h) ::
      (h in refs <==> h in refs') && (h in refs ==> refs'[h] == refs[h])
  }

  ghost predicate FatesElsewhere(procs: map<D.DriverId, D.Process>, procs': map<D.DriverId, D.Process>, x: SessionId) {
    && (forall p | p in procs :: p in procs')
    && (forall p | p in procs && procs[p].fate.OwnedBy? && !Of(x, procs[p].fate.holder) ::
          procs'[p].fate == procs[p].fate)
    && (forall p | p in procs' && procs'[p].fate.OwnedBy? && !Of(x, procs'[p].fate.holder) ::
          p in procs && procs[p].fate == procs'[p].fate)
  }

  lemma RefsFrame(s: State, refs': map<D.Holder, D.DriverId>, x: SessionId, m: Managed)
    requires RefsOk(s.d.refs, s.sessions) && RefsElsewhere(s.d.refs, refs', x)
    requires forall h | h in refs' && Of(x, h) :: RefOk(s.sessions[x := m], h, refs'[h])
    ensures RefsOk(refs', s.sessions[x := m])
  {
    forall h | h in refs' ensures RefOk(s.sessions[x := m], h, refs'[h]) {
      if (h.Guard? || h.Taken?) && !Of(x, h) {
        assert RefOk(s.sessions, h, s.d.refs[h]);
      }
    }
  }

  lemma SessionsFrame(s: State, refs': map<D.Holder, D.DriverId>, procs': map<D.DriverId, D.Process>,
                      x: SessionId, m: Managed)
    requires SessionsOk(s.d.refs, s.d.procs, s.sessions)
    requires RefsElsewhere(s.d.refs, refs', x) && FatesElsewhere(s.d.procs, procs', x)
    requires SessionOk(refs', procs', x, m)
    ensures SessionsOk(refs', procs', s.sessions[x := m])
  {
    forall y | y in s.sessions && y != x ensures SessionOk(refs', procs', y, s.sessions[y]) {
      assert SessionOk(s.d.refs, s.d.procs, y, s.sessions[y]);
    }
  }

  lemma OwnersFrame(s: State, procs': map<D.DriverId, D.Process>, x: SessionId, m: Managed)
    requires OwnersOk(s.d.procs, s.sessions) && FatesElsewhere(s.d.procs, procs', x)
    requires forall p | p in procs' && procs'[p].fate.OwnedBy? && Of(x, procs'[p].fate.holder) ::
               OwnerOk(s.sessions[x := m], p, procs'[p])
    ensures OwnersOk(procs', s.sessions[x := m])
  {
    forall p | p in procs' ensures OwnerOk(s.sessions[x := m], p, procs'[p]) {
      if procs'[p].fate.OwnedBy? && !Of(x, procs'[p].fate.holder) {
        assert OwnerOk(s.sessions, p, s.d.procs[p]);
      }
    }
  }

  /** What has to be shown of a step that changes session `x` and the registry. */
  lemma StepFrame(s: State, d: D.State, x: SessionId, m: Managed)
    requires Inv(s) && D.Inv(d)
    requires RefsElsewhere(s.d.refs, d.refs, x) && FatesElsewhere(s.d.procs, d.procs, x)
    requires forall h | h in d.refs && Of(x, h) :: RefOk(s.sessions[x := m], h, d.refs[h])
    requires SessionOk(d.refs, d.procs, x, m)
    requires forall p | p in d.procs && d.procs[p].fate.OwnedBy? && Of(x, d.procs[p].fate.holder) ::
               OwnerOk(s.sessions[x := m], p, d.procs[p])
    ensures Inv(State(d, s.sessions[x := m]))
  {
    hide D.Inv, RefsOk, SessionsOk, OwnersOk, SessionOk, RefOk, OwnerOk, RefsElsewhere, FatesElsewhere;
    RefsFrame(s, d.refs, x, m);
    SessionsFrame(s, d.refs, d.procs, x, m);
    OwnersFrame(s, d.procs, x, m);
  }

  // ----- what the registry's steps do to guards and owners -----

  lemma LaunchFrame(d: D.State, step: D.Step)
    requires D.Inv(d) && D.OfLaunch(step) && D.Next(d, step).Some?
    ensures var d' := D.Next(d, step).value;
            && (forall h: D.Holder | h.Guard? || h.Taken? ::
                  (h in d.refs <==> h in d'.refs) && (h in d.refs ==> d'.refs[h] == d.refs[h]))
            && (forall p | p in d.procs :: p in d'.procs)
            && (forall p | p in d'.procs && d'.procs[p].fate.OwnedBy? :: p in d.procs && d.procs[p].fate.OwnedBy?)
  {
    hide D.Inv;
    LaunchRefsFrame(d, step);
    LaunchProcsFrame(d, step);
  }

  lemma LaunchRefsFrame(d: D.State, step: D.Step)
    requires D.OfLaunch(step) && D.Next(d, step).Some?
    ensures var d' := D.Next(d, step).value;
            forall h: D.Holder | h.Guard? || h.Taken? ::
              (h in d.refs <==> h in d'.refs) && (h in d.refs ==> d'.refs[h] == d.refs[h])
  {
  }

  lemma LaunchProcsFrame(d: D.State, step: D.Step)
    requires D.OfLaunch(step) && D.Next(d, step).Some?
    ensures var d' := D.Next(d, step).value;
            && (forall p | p in d.procs :: p in d'.procs)
            && (forall p | p in d'.procs && d'.procs[p].fate.OwnedBy? :: p in d.procs && d.procs[p].fate.OwnedBy?)
  {
  }

  /** Dropping a reference moves no process into or out of ownership by value. */
  lemma DropFrame(d: D.State, h: D.Holder)
    requires D.Inv(d) && D.Droppable(d, h)
    ensures var d' := D.DropRef(d, h);
            && d'.refs == d.refs - {h}
            && (forall p :: p in d'.procs <==> p in d.procs)
            && (forall p | p in d.procs && (d.procs[p].fate.OwnedBy? || d'.procs[p].fate.OwnedBy?) ::
                  d'.procs[p].fate == d.procs[p].fate)
            && (forall p | p in d.procs && p != d.refs[h] :: d'.procs[p].fate == d.procs[p].fate)
  {
    hide D.Inv, D.Counted, D.EndsOnce, D.DropRef, D.Unwrap, D.Decrement, D.RunDrop, D.Unwrapped;
    D.InvFacts(d);
    D.SharedHasChild(d.procs, d.trace, d.refs[h]);
    D.DropRefIs(d, h);
    var p := d.refs[h];
    assert D.DropRef(d, h).procs == d.procs[p := D.Dropped(d.procs[p])];
  }

  lemma UnwrapFrame(d: D.State, h: D.Holder)
    requires D.Inv(d) && D.Droppable(d, h)
    ensures var d', p := D.Unwrap(d, h), d.refs[h];
            && d'.refs == d.refs - {h}
            && (forall q :: q in d'.procs <==> q in d.procs)
            && (forall q | q in d.procs && q != p :: d'.procs[q].fate == d.procs[q].fate)
            && d.procs[p].fate == D.Shared
            && d'.procs[p].fate == if d.procs[p].strong == 1 then D.OwnedBy(h) else D.Shared
  {
    hide D.Inv, D.Counted, D.EndsOnce, D.DropRef, D.Unwrap, D.Decrement, D.RunDrop;
    D.InvFacts(d);
    D.SharedHasChild(d.procs, d.trace, d.refs[h]);
    D.DropRefIs(d, h);
    var p := d.refs[h];
    assert D.Unwrap(d, h).procs == d.procs[p := D.Unwrapped(d.procs[p], h)];
  }

  // ----- what the session's steps do to its releases -----

  lemma LocalFrame(e: E.State, step: E.Step)
    requires E.Inv(e) && OfSession(e, step) && E.Next(e, step).Some?
    ensures var e' := E.Next(e, step).value;
            && (forall o | E.OpIs(e, o, E.Taken) || E.OpIs(e', o, E.Taken) :: E.OpIs(e, o, E.Taken) && E.OpIs(e', o, E.Taken))
            && (forall o | E.OpIs(e, o, E.Ending) || E.OpIs(e', o, E.Ending) :: E.OpIs(e, o, E.Ending) && E.OpIs(e', o, E.Ending))
            && (!E.AllGone(e) ==> !E.AllGone(e'))
  {
    hide E.Inv;
    LocalOps(e, step);
    if !E.AllGone(e) { LocalHandles(e, step); }
  }

  lemma LocalOps(e: E.State, step: E.Step)
    requires OfSession(e, step) && E.Next(e, step).Some?
    ensures var e' := E.Next(e, step).value;
            && (forall o | E.OpIs(e, o, E.Taken) || E.OpIs(e', o, E.Taken) :: E.OpIs(e, o, E.Taken) && E.OpIs(e', o, E.Taken))
            && (forall o | E.OpIs(e, o, E.Ending) || E.OpIs(e', o, E.Ending) :: E.OpIs(e, o, E.Ending) && E.OpIs(e', o, E.Ending))
  {
  }

  lemma LocalHandles(e: E.State, step: E.Step)
    requires OfSession(e, step) && E.Next(e, step).Some? && !E.AllGone(e)
    ensures !E.AllGone(E.Next(e, step).value)
  {
    var h :| h in e.handles && e.handles[h].pc != E.Gone;
    var e' := E.Next(e, step).value;
    assert h in e'.handles && e'.handles[h].pc != E.Gone;
  }

  // ----- every step keeps the invariant -----

  lemma LaunchKeepsInv(s: State, step: D.Step)
    requires Inv(s) && D.OfLaunch(step) && D.Next(s.d, step).Some?
    ensures Inv(s.(d := D.Next(s.d, step).value))
  {
    hide D.Inv, D.Next;
    var d' := D.Next(s.d, step).value;
    D.StepKeepsInv(s.d, step);
    LaunchFrame(s.d, step);
    forall p | p in s.d.procs && s.d.procs[p].fate.OwnedBy? ensures d'.procs[p] == s.d.procs[p] {
      D.UnsharedIsUnreachable(s.d, p);
      D.LaunchLeaves(s.d, step, p);
    }
    RefsAfterLaunch(s, d'.refs);
    SessionsAfterLaunch(s, d'.refs, d'.procs);
    OwnersAfterLaunch(s, d'.procs);
  }

  lemma RefsAfterLaunch(s: State, refs': map<D.Holder, D.DriverId>)
    requires RefsOk(s.d.refs, s.sessions)
    requires forall h: D.Holder | h.Guard? || h.Taken? ::
               (h in s.d.refs <==> h in refs') && (h in s.d.refs ==> refs'[h] == s.d.refs[h])
    ensures RefsOk(refs', s.sessions)
  {
    forall h | h in refs' ensures RefOk(s.sessions, h, refs'[h]) {
      if h.Guard? || h.Taken? {
        assert RefOk(s.sessions, h, s.d.refs[h]);
      }
    }
  }

  lemma SessionsAfterLaunch(s: State, refs': map<D.Holder, D.DriverId>, procs': map<D.DriverId, D.Process>)
    requires SessionsOk(s.d.refs, s.d.procs, s.sessions)
    requires forall h: D.Holder | h.Guard? || h.Taken? :: h in s.d.refs <==> h in refs'
    requires forall p | p in s.d.procs :: p in procs' && (s.d.procs[p].fate.OwnedBy? ==> procs'[p] == s.d.procs[p])
    ensures SessionsOk(refs', procs', s.sessions)
  {
    forall y | y in s.sessions ensures SessionOk(refs', procs', y, s.sessions[y]) {
      assert SessionOk(s.d.refs, s.d.procs, y, s.sessions[y]);
    }
  }

  lemma OwnersAfterLaunch(s: State, procs': map<D.DriverId, D.Process>)
    requires OwnersOk(s.d.procs, s.sessions)
    requires forall p | p in procs' && procs'[p].fate.OwnedBy? :: p in s.d.procs && procs'[p] == s.d.procs[p]
    ensures OwnersOk(procs', s.sessions)
  {
    forall p | p in procs' && procs'[p].fate.OwnedBy? ensures OwnerOk(s.sessions, p, procs'[p]) {
      assert OwnerOk(s.sessions, p, s.d.procs[p]);
    }
  }

  lemma SessionFacts(s: State, x: SessionId)
    requires Inv(s) && x in s.sessions
    ensures SessionOk(s.d.refs, s.d.procs, x, s.sessions[x])
    ensures forall h | h in s.d.refs && Of(x, h) :: RefOk(s.sessions, h, s.d.refs[h])
    ensures forall p | p in s.d.procs :: OwnerOk(s.sessions, p, s.d.procs[p])
  {
    hide D.Inv, SessionOk, RefOk, OwnerOk;
  }

  lemma SameElsewhere(s: State, x: SessionId)
    ensures RefsElsewhere(s.d.refs, s.d.refs, x) && FatesElsewhere(s.d.procs, s.d.procs, x)
  {
  }

  /** How far the end of one session may move while the registry stands still. */
  ghost predicate LocalMove(s: State, x: SessionId, e: E.State)
    requires x in s.sessions
  {
    && E.Inv(e)
    && (forall o :: D.Taken(x, o) in s.d.refs ==> E.OpIs(e, o, E.Taken))
    && (forall o | E.OpIs(e, o, E.Taken) :: E.OpIs(s.sessions[x].end, o, E.Taken))
    && (forall o :: E.OpIs(e, o, E.Ending) <==> E.OpIs(s.sessions[x].end, o, E.Ending))
    && (D.Guard(x) in s.d.refs ==> !E.AllGone(e))
    && (E.EndAttempted(s.sessions[x].end) ==> E.EndAttempted(e))
  }

  lemma LocalRefs(s: State, x: SessionId, e: E.State)
    requires x in s.sessions && LocalMove(s, x, e)
    requires forall h | h in s.d.refs && Of(x, h) :: RefOk(s.sessions, h, s.d.refs[h])
    ensures forall h | h in s.d.refs && Of(x, h) ::
              RefOk(s.sessions[x := s.sessions[x].(end := e)], h, s.d.refs[h])
  {
    hide E.AllGone, E.Inv, E.EndAttempted;
    forall h | h in s.d.refs && Of(x, h) ensures RefOk(s.sessions[x := s.sessions[x].(end := e)], h, s.d.refs[h]) {
      assert RefOk(s.sessions, h, s.d.refs[h]);
    }
  }

  lemma LocalSession(s: State, x: SessionId, e: E.State)
    requires x in s.sessions && LocalMove(s, x, e) && SessionOk(s.d.refs, s.d.procs, x, s.sessions[x])
    ensures SessionOk(s.d.refs, s.d.procs, x, s.sessions[x].(end := e))
  {
    hide E.AllGone, E.Inv, E.EndAttempted;
    forall o | o in e.ops
      ensures e.ops[o].pc == E.Taken ==> D.Taken(x, o) in s.d.refs
      ensures e.ops[o].pc == E.Ending ==> s.d.procs[s.sessions[x].proc].fate == D.OwnedBy(D.Taken(x, o))
    {
      assert E.OpIs(e, o, E.Taken) ==> E.OpIs(s.sessions[x].end, o, E.Taken);
      assert E.OpIs(e, o, E.Ending) ==> E.OpIs(s.sessions[x].end, o, E.Ending);
    }
  }

  lemma LocalOwners(s: State, x: SessionId, e: E.State)
    requires x in s.sessions && LocalMove(s, x, e)
    requires forall p | p in s.d.procs :: OwnerOk(s.sessions, p, s.d.procs[p])
    ensures forall p | p in s.d.procs :: OwnerOk(s.sessions[x := s.sessions[x].(end := e)], p, s.d.procs[p])
  {
    hide E.AllGone, E.Inv, E.EndAttempted;
    forall p | p in s.d.procs ensures OwnerOk(s.sessions[x := s.sessions[x].(end := e)], p, s.d.procs[p]) {
      assert OwnerOk(s.sessions, p, s.d.procs[p]);
    }
  }

  /** A step of the session alone. */
  lemma LocalKeepsInv(s: State, x: SessionId, e: E.State)
    requires Inv(s) && x in s.sessions && LocalMove(s, x, e)
    ensures Inv(s.(sessions := s.sessions[x := s.sessions[x].(end := e)]))
  {
    SessionFacts(s, x);
    SameElsewhere(s, x);
    LocalRefs(s, x, e);
    LocalSession(s, x, e);
    LocalOwners(s, x, e);
    hide *;
    StepFrame(s, s.d, x, s.sessions[x].(end := e));
  }

  /** Ending one op of a session moves nothing else of it. */
  lemma OpMoved(e: E.State, o: E.OpId, step: E.Step)
    requires E.Inv(e) && E.Next(e, step).Some? && o in e.ops
    requires step == E.CancelQuit(o, None) || (step.Release? && step.op == o) || (step.Unwrapped? && step.op == o) || step == E.EndDone(o)
    requires e.ops[o].pc == E.CellDone || e.ops[o].pc == E.Taken || e.ops[o].pc == E.Ending
    ensures var e' := E.Next(e, step).value;
            && E.Inv(e') && e'.handles == e.handles && e'.cell == e.cell && e.cell.Set?
            && e'.ops == e.ops[o := e.ops[o].(pc := e'.ops[o].pc)]
  {
    E.StepKeepsInv(e, step);
    E.OpFacts(e, o);
    hide E.Inv;
  }

  lemma SameHandles(e: E.State, e': E.State)
    requires e'.handles == e.handles && e'.cell == e.cell
    ensures E.AllGone(e') == E.AllGone(e) && E.EndAttempted(e') == E.EndAttempted(e)
  {
  }

  /** Op `o` of session `x` leaves its release: its reference, if it had one, is gone, and it owns
      the process by value exactly while it is ending it. */
  ghost predicate Leaves(s: State, x: SessionId, o: E.OpId, d: D.State, e: E.State) {
    && x in s.sessions && o in s.sessions[x].end.ops && s.sessions[x].proc in s.d.procs
    && e.handles == s.sessions[x].end.handles && e.cell == s.sessions[x].end.cell
    && o in e.ops && e.ops == s.sessions[x].end.ops[o := e.ops[o]]
    && (e.ops[o].pc == E.Finished || e.ops[o].pc == E.Ending)
    && d.refs == s.d.refs - {D.Taken(x, o)}
    && (forall p :: p in d.procs <==> p in s.d.procs)
    && (forall p | p in d.procs && p != s.sessions[x].proc :: d.procs[p].fate == s.d.procs[p].fate)
    && FateMove(s.d.procs[s.sessions[x].proc].fate, d.procs[s.sessions[x].proc].fate, D.Taken(x, o), e.ops[o].pc)
  }

  predicate FateMove(f: D.Fate, f': D.Fate, h: D.Holder, pc: E.OpPc) {
    && (f == f' || f == D.OwnedBy(h) || f == D.Shared)
    && (f'.OwnedBy? ==> f' == f || f' == D.OwnedBy(h))
    && (f' == D.OwnedBy(h) <==> pc == E.Ending)
  }

  lemma LeavesRefs(s: State, x: SessionId, o: E.OpId, d: D.State, e: E.State)
    requires Leaves(s, x, o, d, e)
    requires forall h | h in s.d.refs && Of(x, h) :: RefOk(s.sessions, h, s.d.refs[h])
    ensures forall h | h in d.refs && Of(x, h) :: RefOk(s.sessions[x := s.sessions[x].(end := e)], h, d.refs[h])
  {
    SameHandles(s.sessions[x].end, e);
    hide E.AllGone;
    forall h | h in d.refs && Of(x, h)
      ensures RefOk(s.sessions[x := s.sessions[x].(end := e)], h, d.refs[h])
    {
      assert RefOk(s.sessions, h, s.d.refs[h]);
    }
  }

  lemma LeavesElsewhere(s: State, x: SessionId, o: E.OpId, d: D.State, e: E.State)
    requires Leaves(s, x, o, d, e)
    ensures RefsElsewhere(s.d.refs, d.refs, x) && FatesElsewhere(s.d.procs, d.procs, x)
  {
  }

  lemma LeavesSession(s: State, x: SessionId, o: E.OpId, d: D.State, e: E.State)
    requires Leaves(s, x, o, d, e) && E.Inv(e) && SessionOk(s.d.refs, s.d.procs, x, s.sessions[x])
    ensures SessionOk(d.refs, d.procs, x, s.sessions[x].(end := e))
  {
    SameHandles(s.sessions[x].end, e);
    hide E.Inv, E.EndAttempted;
  }

  lemma LeavesOwners(s: State, x: SessionId, o: E.OpId, d: D.State, e: E.State)
    requires Leaves(s, x, o, d, e) && forall p | p in s.d.procs :: OwnerOk(s.sessions, p, s.d.procs[p])
    ensures forall p | p in d.procs && d.procs[p].fate.OwnedBy? && Of(x, d.procs[p].fate.holder) ::
              OwnerOk(s.sessions[x := s.sessions[x].(end := e)], p, d.procs[p])
  {
    forall p | p in d.procs && d.procs[p].fate.OwnedBy? && Of(x, d.procs[p].fate.holder)
      ensures OwnerOk(s.sessions[x := s.sessions[x].(end := e)], p, d.procs[p])
    {
      assert OwnerOk(s.sessions, p, s.d.procs[p]);
    }
  }

  lemma OpLeaves(s: State, x: SessionId, o: E.OpId, d: D.State, e: E.State)
    requires Inv(s) && D.Inv(d) && E.Inv(e) && Leaves(s, x, o, d, e)
    ensures Inv(State(d, s.sessions[x := s.sessions[x].(end := e)]))
  {
    SessionFacts(s, x);
    LeavesRefs(s, x, o, d, e);
    LeavesSession(s, x, o, d, e);
    LeavesOwners(s, x, o, d, e);
    LeavesElsewhere(s, x, o, d, e);
    hide *;
    StepFrame(s, d, x, s.sessions[x].(end := e));
  }

  // ----- the steps that touch the guard -----

  /** What the invariant says about one op of one session. */
  lemma ReleaseFacts(s: State, x: SessionId, o: E.OpId)
    requires Inv(s) && x in s.sessions
    ensures var m, h := s.sessions[x], D.Taken(x, o);
            && D.Inv(s.d) && E.Inv(m.end) && m.proc in s.d.procs
            && (h in s.d.refs <==> E.OpIs(m.end, o, E.Taken))
            && (h in s.d.refs ==> s.d.refs[h] == m.proc)
            && (s.d.procs[m.proc].fate == D.OwnedBy(h) <==> E.OpIs(m.end, o, E.Ending))
            && (D.Guard(x) in s.d.refs ==> s.d.refs[D.Guard(x)] == m.proc && !E.AllGone(m.end))
            && (D.Guard(x) !in s.d.refs ==> E.EndAttempted(m.end))
  {
    SessionFacts(s, x);
    hide D.Inv, E.Inv, RefsOk, SessionsOk, OwnersOk, E.AllGone, E.EndAttempted;
    var m, h := s.sessions[x], D.Taken(x, o);
    assert OwnerOk(s.sessions, m.proc, s.d.procs[m.proc]);
    assert h in s.d.refs ==> RefOk(s.sessions, h, s.d.refs[h]);
    assert D.Guard(x) in s.d.refs ==> RefOk(s.sessions, D.Guard(x), s.d.refs[D.Guard(x)]);
  }

  lemma StartKeepsInv(s: State, t: D.TaskId, x: SessionId, h: E.HandleId)
    requires Inv(s) && Next(s, StartSession(t, x, h)).Some?
    ensures Inv(Next(s, StartSession(t, x, h)).value)
  {
    StartIs(s, t, x, h);
    StartParts(s, t, x, h);
    hide *;
    StepFrame(s, D.Next(s.d, D.ToGuard(t, x)).value, x, Managed(s.d.refs[D.Lease(t)], s.d.tasks[t].key, E.Init(h)));
  }

  lemma StartIs(s: State, t: D.TaskId, x: SessionId, h: E.HandleId)
    requires Next(s, StartSession(t, x, h)).Some?
    ensures x !in s.sessions && D.Lease(t) in s.d.refs && t in s.d.tasks && D.Next(s.d, D.ToGuard(t, x)).Some?
    ensures var d := D.Next(s.d, D.ToGuard(t, x)).value;
            Next(s, StartSession(t, x, h)) == Some(State(d, s.sessions[x := Managed(s.d.refs[D.Lease(t)], s.d.tasks[t].key, E.Init(h))]))
  {
    hide D.Next;
  }

  /** What `StepFrame` needs of a started session. */
  lemma StartParts(s: State, t: D.TaskId, x: SessionId, h: E.HandleId)
    requires Inv(s) && x !in s.sessions && D.Lease(t) in s.d.refs && t in s.d.tasks && D.Next(s.d, D.ToGuard(t, x)).Some?
    ensures var d, m := D.Next(s.d, D.ToGuard(t, x)).value, Managed(s.d.refs[D.Lease(t)], s.d.tasks[t].key, E.Init(h));
            && D.Inv(d) && RefsElsewhere(s.d.refs, d.refs, x) && FatesElsewhere(s.d.procs, d.procs, x)
            && (forall h | h in d.refs && Of(x, h) :: RefOk(s.sessions[x := m], h, d.refs[h]))
            && SessionOk(d.refs, d.procs, x, m)
            && (forall p | p in d.procs && d.procs[p].fate.OwnedBy? && Of(x, d.procs[p].fate.holder) ::
                  OwnerOk(s.sessions[x := m], p, d.procs[p]))
  {
    hide D.Inv, E.Inv, RefsOk, SessionsOk, OwnersOk, SessionOk, FatesElsewhere, RefsElsewhere, E.AllGone, D.Next, E.Init;
    D.StepKeepsInv(s.d, D.ToGuard(t, x));
    FreshSession(s, x);
    LeasedProcess(s.d, t);
    StartElsewhere(s, t, x);
    FreshOk(D.Next(s.d, D.ToGuard(t, x)).value, x, s.d.refs[D.Lease(t)], s.d.tasks[t].key, h);
  }

  lemma LeasedProcess(d: D.State, t: D.TaskId)
    requires D.Inv(d) && D.Lease(t) in d.refs
    ensures d.refs[D.Lease(t)] in d.procs
  {
    D.InvFacts(d);
    D.HeldIsCounted(d, D.Lease(t));
  }

  lemma StartElsewhere(s: State, t: D.TaskId, x: SessionId)
    requires D.Next(s.d, D.ToGuard(t, x)).Some?
    ensures var d := D.Next(s.d, D.ToGuard(t, x)).value;
            RefsElsewhere(s.d.refs, d.refs, x) && FatesElsewhere(s.d.procs, d.procs, x) && d.procs == s.d.procs
            && d.refs == (s.d.refs - {D.Lease(t)})[D.Guard(x) := s.d.refs[D.Lease(t)]]
  {
  }

  lemma FreshOk(d: D.State, x: SessionId, p: D.DriverId, key: D.DriverKey, h: E.HandleId)
    requires D.Guard(x) in d.refs && p in d.procs
    ensures SessionOk(d.refs, d.procs, x, Managed(p, key, E.Init(h))) && !E.AllGone(E.Init(h)) && E.Inv(E.Init(h))
  {
    assert E.Init(h).handles[h].pc == E.Live;
  }

  lemma FreshSession(s: State, x: SessionId)
    requires RefsOk(s.d.refs, s.sessions) && OwnersOk(s.d.procs, s.sessions) && x !in s.sessions
    ensures forall h | h in s.d.refs :: !Of(x, h)
    ensures forall p | p in s.d.procs && s.d.procs[p].fate.OwnedBy? :: !Of(x, s.d.procs[p].fate.holder)
  {
    forall h | h in s.d.refs ensures !Of(x, h) {
      assert RefOk(s.sessions, h, s.d.refs[h]);
    }
    forall p | p in s.d.procs && s.d.procs[p].fate.OwnedBy? ensures !Of(x, s.d.procs[p].fate.holder) {
      assert OwnerOk(s.sessions, p, s.d.procs[p]);
    }
  }

  lemma IntoInnerKeepsInv(s: State, x: SessionId, o: E.OpId)
    requires Inv(s) && x in s.sessions && IntoInnerStep(s, x, o).Some?
    ensures Inv(IntoInnerStep(s, x, o).value)
  {
    hide Inv, D.Inv, E.Inv, D.Unwrap, D.DropRef, SessionOk, RefOk, OwnerOk, RefsOk, SessionsOk, OwnersOk, E.AllGone, E.EndAttempted;
    ReleaseFacts(s, x, o);
    var last := s.d.procs[s.sessions[x].proc].strong == 1;
    OpMoved(s.sessions[x].end, o, E.Unwrapped(o, last));
    UnwrapFrame(s.d, D.Taken(x, o));
    D.StepKeepsInv(s.d, D.IntoInner(x, o));
    OpLeaves(s, x, o, D.Unwrap(s.d, D.Taken(x, o)), E.Next(s.sessions[x].end, E.Unwrapped(o, last)).value);
  }

  /** A cancelled release drops the reference it holds. */
  lemma CancelTakenKeepsInv(s: State, x: SessionId, o: E.OpId)
    requires Inv(s) && x in s.sessions && E.OpIs(s.sessions[x].end, o, E.Taken) && CancelReleaseStep(s, x, o).Some?
    ensures Inv(CancelReleaseStep(s, x, o).value)
  {
    hide Inv, D.Inv, E.Inv, D.Unwrap, D.DropRef, SessionOk, RefOk, OwnerOk, RefsOk, SessionsOk, OwnersOk, E.AllGone, E.EndAttempted;
    ReleaseFacts(s, x, o);
    OpMoved(s.sessions[x].end, o, E.CancelQuit(o, None));
    DropFrame(s.d, D.Taken(x, o));
    D.StepKeepsInv(s.d, D.DropTaken(x, o));
    D.InvFacts(s.d);
    D.SharedHasChild(s.d.procs, s.d.trace, s.sessions[x].proc);
    OpLeaves(s, x, o, D.DropRef(s.d, D.Taken(x, o)), E.Next(s.sessions[x].end, E.CancelQuit(o, None)).value);
  }

  /** Its owner drops the process: at the end of `shutdown`, or because that was cancelled. */
  lemma EndKeepsInv(s: State, x: SessionId, o: E.OpId, step: E.Step)
    requires Inv(s) && x in s.sessions && E.OpIs(s.sessions[x].end, o, E.Ending)
    requires step == E.EndDone(o) || step == E.CancelQuit(o, None)
    requires Both(s, x, D.Next(s.d, D.DropOwned(s.sessions[x].proc)), E.Next(s.sessions[x].end, step)).Some?
    ensures Inv(Both(s, x, D.Next(s.d, D.DropOwned(s.sessions[x].proc)), E.Next(s.sessions[x].end, step)).value)
  {
    hide Inv, D.Inv, E.Inv, D.Unwrap, D.DropRef, SessionOk, RefOk, OwnerOk, RefsOk, SessionsOk, OwnersOk, E.AllGone, E.EndAttempted;
    var p := s.sessions[x].proc;
    ReleaseFacts(s, x, o);
    OpMoved(s.sessions[x].end, o, step);
    D.StepKeepsInv(s.d, D.DropOwned(p));
    assert s.d.refs - {D.Taken(x, o)} == s.d.refs;
    OpLeaves(s, x, o, D.RunDrop(s.d, p), E.Next(s.sessions[x].end, step).value);
  }

  lemma ReleaseKeepsInv(s: State, x: SessionId, o: E.OpId)
    requires Inv(s) && x in s.sessions && ReleaseStep(s, x, o).Some?
    ensures Inv(ReleaseStep(s, x, o).value)
  {
    hide Inv, D.Inv, E.Inv, D.Unwrap, D.DropRef, SessionOk, RefOk, OwnerOk, RefsOk, SessionsOk, OwnersOk, E.AllGone, E.EndAttempted;
    ReleaseFacts(s, x, o);
    var m := s.sessions[x];
    if m.end.ops[o].caller.ByHandle? && D.Guard(x) in s.d.refs {
      OpMoved(m.end, o, E.Release(o, true));
      D.StepKeepsInv(s.d, D.Take(x, o));
      TakeParts(s, x, o, E.Next(m.end, E.Release(o, true)).value);
    } else {
      OpMoved(m.end, o, E.Release(o, false));
      assert s.d.refs - {D.Taken(x, o)} == s.d.refs;
      OpLeaves(s, x, o, s.d, E.Next(m.end, E.Release(o, false)).value);
    }
  }

  /** `take()` moves the guard's reference to the op, on a session whose cell is set. */
  lemma TakeParts(s: State, x: SessionId, o: E.OpId, e: E.State)
    requires Inv(s) && x in s.sessions && o in s.sessions[x].end.ops && s.sessions[x].end.ops[o].pc == E.CellDone
    requires D.Guard(x) in s.d.refs && D.Taken(x, o) !in s.d.refs
    requires D.Inv(D.MoveRef(s.d, D.Guard(x), D.Taken(x, o))) && E.Inv(e)
    requires e.handles == s.sessions[x].end.handles && e.cell == s.sessions[x].end.cell && e.cell.Set?
    requires e.ops == s.sessions[x].end.ops[o := s.sessions[x].end.ops[o].(pc := E.Taken)]
    ensures Inv(State(D.MoveRef(s.d, D.Guard(x), D.Taken(x, o)), s.sessions[x := s.sessions[x].(end := e)]))
  {
    SessionFacts(s, x);
    TakeRefs(s, x, o, e);
    TakeSession(s, x, o, e);
    TakeOwners(s, x, o, e);
    TakeElsewhere(s, x, o);
    hide *;
    StepFrame(s, D.MoveRef(s.d, D.Guard(x), D.Taken(x, o)), x, s.sessions[x].(end := e));
  }

  lemma TakeElsewhere(s: State, x: SessionId, o: E.OpId)
    requires D.Guard(x) in s.d.refs
    ensures var d := D.MoveRef(s.d, D.Guard(x), D.Taken(x, o));
            && RefsElsewhere(s.d.refs, d.refs, x) && FatesElsewhere(s.d.procs, d.procs, x)
            && d.procs == s.d.procs
            && d.refs == (s.d.refs - {D.Guard(x)})[D.Taken(x, o) := s.d.refs[D.Guard(x)]]
  {
  }

  lemma TakeRefs(s: State, x: SessionId, o: E.OpId, e: E.State)
    requires x in s.sessions && o in s.sessions[x].end.ops && D.Guard(x) in s.d.refs
    requires forall h | h in s.d.refs && Of(x, h) :: RefOk(s.sessions, h, s.d.refs[h])
    requires e.ops == s.sessions[x].end.ops[o := s.sessions[x].end.ops[o].(pc := E.Taken)]
    ensures var d := D.MoveRef(s.d, D.Guard(x), D.Taken(x, o));
            forall h | h in d.refs && Of(x, h) :: RefOk(s.sessions[x := s.sessions[x].(end := e)], h, d.refs[h])
  {
    hide E.AllGone;
    assert RefOk(s.sessions, D.Guard(x), s.d.refs[D.Guard(x)]);
    var d := D.MoveRef(s.d, D.Guard(x), D.Taken(x, o));
    forall h | h in d.refs && Of(x, h) ensures RefOk(s.sessions[x := s.sessions[x].(end := e)], h, d.refs[h]) {
      if h != D.Taken(x, o) {
        assert RefOk(s.sessions, h, s.d.refs[h]);
      }
    }
  }

  lemma TakeSession(s: State, x: SessionId, o: E.OpId, e: E.State)
    requires x in s.sessions && o in s.sessions[x].end.ops && D.Guard(x) in s.d.refs && E.Inv(e)
    requires SessionOk(s.d.refs, s.d.procs, x, s.sessions[x]) && e.cell.Set?
    requires e.ops == s.sessions[x].end.ops[o := s.sessions[x].end.ops[o].(pc := E.Taken)]
    ensures var d := D.MoveRef(s.d, D.Guard(x), D.Taken(x, o));
            SessionOk(d.refs, d.procs, x, s.sessions[x].(end := e))
  {
    assert E.EndAttempted(e);
    hide E.Inv, E.EndAttempted;
  }

  lemma TakeOwners(s: State, x: SessionId, o: E.OpId, e: E.State)
    requires x in s.sessions && o in s.sessions[x].end.ops && s.sessions[x].end.ops[o].pc == E.CellDone
    requires forall p | p in s.d.procs :: OwnerOk(s.sessions, p, s.d.procs[p])
    requires e.ops == s.sessions[x].end.ops[o := s.sessions[x].end.ops[o].(pc := E.Taken)]
    ensures forall p | p in s.d.procs :: OwnerOk(s.sessions[x := s.sessions[x].(end := e)], p, s.d.procs[p])
  {
    forall p | p in s.d.procs ensures OwnerOk(s.sessions[x := s.sessions[x].(end := e)], p, s.d.procs[p]) {
      assert OwnerOk(s.sessions, p, s.d.procs[p]);
    }
  }

  lemma KillKeepsInv(s: State, x: SessionId, o: E.OpId)
    requires Inv(s) && x in s.sessions && E.OpIs(s.sessions[x].end, o, E.Ending)
    requires D.Next(s.d, D.KillOwned(s.sessions[x].proc)).Some?
    ensures Inv(s.(d := D.Next(s.d, D.KillOwned(s.sessions[x].proc)).value))
  {
    hide D.Inv, SessionsOk, OwnersOk, RefsOk, Inv;
    var p := s.sessions[x].proc;
    var d := D.Next(s.d, D.KillOwned(p)).value;
    InvParts(s);
    D.StepKeepsInv(s.d, D.KillOwned(p));
    SameFates(s, d.procs);
    AssembleInv(State(d, s.sessions));
  }

  lemma InvParts(s: State)
    requires Inv(s)
    ensures D.Inv(s.d) && RefsOk(s.d.refs, s.sessions)
    ensures SessionsOk(s.d.refs, s.d.procs, s.sessions) && OwnersOk(s.d.procs, s.sessions)
  {
    hide D.Inv, SessionsOk, OwnersOk, RefsOk;
  }

  lemma AssembleInv(s: State)
    requires D.Inv(s.d) && RefsOk(s.d.refs, s.sessions)
    requires SessionsOk(s.d.refs, s.d.procs, s.sessions) && OwnersOk(s.d.procs, s.sessions)
    ensures Inv(s)
  {
    hide D.Inv, SessionsOk, OwnersOk, RefsOk;
  }

  lemma SameFates(s: State, procs': map<D.DriverId, D.Process>)
    requires Inv(s)
    requires forall p | p in s.d.procs :: p in procs'
    requires forall p | p in procs' :: p in s.d.procs && procs'[p].fate == s.d.procs[p].fate
    ensures SessionsOk(s.d.refs, procs', s.sessions) && OwnersOk(procs', s.sessions)
  {
    hide D.Inv, E.Inv, RefsOk;
    forall y | y in s.sessions ensures SessionOk(s.d.refs, procs', y, s.sessions[y]) {
      assert SessionOk(s.d.refs, s.d.procs, y, s.sessions[y]);
    }
    forall q | q in procs' ensures OwnerOk(s.sessions, q, procs'[q]) {
      assert OwnerOk(s.sessions, q, s.d.procs[q]);
    }
  }

  // ----- dropping handles -----

  lemma LastFields(e: E.State, h: E.HandleId)
    requires E.Inv(e) && E.Next(e, E.DropFields(h)).Some?
    ensures var e' := E.Next(e, E.DropFields(h)).value;
            && E.Inv(e') && e'.ops == e.ops && e'.cell == e.cell
            && (E.EndAttempted(e) ==> E.EndAttempted(e'))
            && (E.AllGone(e') ==> E.EndAttempted(e) && E.EndAttempted(e'))
  {
    var e' := E.Next(e, E.DropFields(h)).value;
    E.StepKeepsInv(e, E.DropFields(h));
    E.EndIsStable(e, E.DropFields(h));
    if E.AllGone(e') {
      forall g | g in e.handles ensures e.handles[g].pc == E.DroppingFields || e.handles[g].pc == E.Gone {
        assert g in e'.handles && e'.handles[g].pc == E.Gone;
      }
      E.FinishedAttempted(e);
      E.FinishedAttempted(e');
    }
  }

  lemma DropFieldsKeepsInv(s: State, x: SessionId, h: E.HandleId)
    requires Inv(s) && x in s.sessions && DropFieldsStep(s, x, h).Some?
    ensures Inv(DropFieldsStep(s, x, h).value)
  {
    hide Inv, D.Inv, E.Inv, D.Unwrap, D.DropRef, SessionOk, RefOk, OwnerOk, RefsOk, SessionsOk, OwnersOk, E.AllGone, E.EndAttempted;
    var e := s.sessions[x].end;
    var e' := E.Next(e, E.DropFields(h)).value;
    ReleaseFacts(s, x, 0);
    LastFields(e, h);
    if E.AllGone(e') && D.Guard(x) in s.d.refs {
      DropFrame(s.d, D.Guard(x));
      D.StepKeepsInv(s.d, D.DropGuard(x));
      GuardDropped(s, x, D.DropRef(s.d, D.Guard(x)), e');
    } else {
      LocalAfterFields(s, x, e');
      LocalKeepsInv(s, x, e');
    }
  }

  lemma LocalAfterFields(s: State, x: SessionId, e: E.State)
    requires Inv(s) && x in s.sessions && E.Inv(e) && e.ops == s.sessions[x].end.ops
    requires E.EndAttempted(s.sessions[x].end) ==> E.EndAttempted(e)
    requires D.Guard(x) in s.d.refs ==> !E.AllGone(e)
    ensures LocalMove(s, x, e)
  {
    hide Inv, E.Inv, E.AllGone, E.EndAttempted, D.Inv;
    forall o ensures D.Taken(x, o) in s.d.refs ==> E.OpIs(e, o, E.Taken) {
      ReleaseFacts(s, x, o);
    }
  }

  /** The last handle drops the guard, with the reference that is still in it. */
  lemma GuardDropped(s: State, x: SessionId, d: D.State, e: E.State)
    requires Inv(s) && x in s.sessions && D.Inv(d) && E.Inv(e) && e.ops == s.sessions[x].end.ops
    requires E.EndAttempted(e) && d.refs == s.d.refs - {D.Guard(x)}
    requires forall p :: p in d.procs <==> p in s.d.procs
    requires forall p | p in d.procs && (s.d.procs[p].fate.OwnedBy? || d.procs[p].fate.OwnedBy?) ::
               d.procs[p].fate == s.d.procs[p].fate
    ensures Inv(State(d, s.sessions[x := s.sessions[x].(end := e)]))
  {
    SessionFacts(s, x);
    GuardDroppedParts(s, x, d, e);
    hide *;
    StepFrame(s, d, x, s.sessions[x].(end := e));
  }

  lemma GuardDroppedParts(s: State, x: SessionId, d: D.State, e: E.State)
    requires x in s.sessions && E.Inv(e) && e.ops == s.sessions[x].end.ops
    requires SessionOk(s.d.refs, s.d.procs, x, s.sessions[x])
    requires forall h | h in s.d.refs && Of(x, h) :: RefOk(s.sessions, h, s.d.refs[h])
    requires forall p | p in s.d.procs :: OwnerOk(s.sessions, p, s.d.procs[p])
    requires E.EndAttempted(e) && d.refs == s.d.refs - {D.Guard(x)}
    requires forall p :: p in d.procs <==> p in s.d.procs
    requires forall p | p in d.procs && (s.d.procs[p].fate.OwnedBy? || d.procs[p].fate.OwnedBy?) ::
               d.procs[p].fate == s.d.procs[p].fate
    ensures var m := s.sessions[x].(end := e);
            && RefsElsewhere(s.d.refs, d.refs, x) && FatesElsewhere(s.d.procs, d.procs, x)
            && (forall h | h in d.refs && Of(x, h) :: RefOk(s.sessions[x := m], h, d.refs[h]))
            && SessionOk(d.refs, d.procs, x, m)
            && (forall p | p in d.procs :: OwnerOk(s.sessions[x := m], p, d.procs[p]))
  {
    hide E.Inv, E.EndAttempted, E.AllGone;
    var m := s.sessions[x].(end := e);
    forall h | h in d.refs && Of(x, h) ensures RefOk(s.sessions[x := m], h, d.refs[h]) {
      assert RefOk(s.sessions, h, s.d.refs[h]);
    }
    forall p | p in d.procs ensures OwnerOk(s.sessions[x := m], p, d.procs[p]) {
      assert OwnerOk(s.sessions, p, s.d.procs[p]);
    }
  }

  lemma LocalStepKeepsInv(s: State, x: SessionId, step: E.Step)
    requires Inv(s) && Next(s, Local(x, step)).Some?
    ensures Inv(Next(s, Local(x, step)).value)
  {
    LocalIs(s, x, step);
    LocalMoves(s, x, step);
    hide *;
    LocalKeepsInv(s, x, E.Next(s.sessions[x].end, step).value);
  }

  lemma LocalIs(s: State, x: SessionId, step: E.Step)
    requires Next(s, Local(x, step)).Some?
    ensures x in s.sessions && OfSession(s.sessions[x].end, step) && E.Next(s.sessions[x].end, step).Some?
    ensures var e := E.Next(s.sessions[x].end, step).value;
            Next(s, Local(x, step)) == Some(s.(sessions := s.sessions[x := s.sessions[x].(end := e)]))
  {
    hide E.Next, OfSession;
  }

  lemma LocalMoves(s: State, x: SessionId, step: E.Step)
    requires Inv(s) && x in s.sessions && OfSession(s.sessions[x].end, step) && E.Next(s.sessions[x].end, step).Some?
    ensures LocalMove(s, x, E.Next(s.sessions[x].end, step).value)
  {
    hide E.Inv, E.EndAttempted, E.AllGone, E.Next, OfSession, Inv;
    var e := s.sessions[x].end;
    ReleaseFacts(s, x, 0);
    E.StepKeepsInv(e, step);
    E.EndIsStable(e, step);
    LocalFrame(e, step);
    forall o ensures D.Taken(x, o) in s.d.refs ==> E.OpIs(e, o, E.Taken) {
      ReleaseFacts(s, x, o);
    }
  }

  /** One step from a state that satisfies the invariant leads to one that does. */
  lemma StepKeepsInv(s: State, step: Step)
    requires Inv(s) && Next(s, step).Some?
    ensures Inv(Next(s, step).value)
  {
    hide Inv, ReleaseStep, IntoInnerStep, CancelReleaseStep, DropFieldsStep, D.Next, E.Next;
    match step
    case Launch(step) => LaunchKeepsInv(s, step);
    case StartSession(t, x, h) => StartKeepsInv(s, t, x, h);
    case Local(x, e) => LocalStepKeepsInv(s, x, e);
    case Release(x, o) => ReleaseKeepsInv(s, x, o);
    case IntoInner(x, o) => IntoInnerKeepsInv(s, x, o);
    case KillChild(x, o) =>
      KillKeepsInv(s, x, o);
      assert s.sessions == s.sessions[x := s.sessions[x].(end := s.sessions[x].end)];
    case EndProcess(x, o) => EndIsEnding(s.sessions[x].end, o); EndKeepsInv(s, x, o, E.EndDone(o));
    case CancelRelease(x, o) => CancelKeepsInv(s, x, o);
    case DropFields(x, h) => DropFieldsKeepsInv(s, x, h);
  }

  lemma EndIsEnding(e: E.State, o: E.OpId)
    requires E.Next(e, E.EndDone(o)).Some?
    ensures E.OpIs(e, o, E.Ending)
  {
  }

  lemma CancelKeepsInv(s: State, x: SessionId, o: E.OpId)
    requires Inv(s) && x in s.sessions && CancelReleaseStep(s, x, o).Some?
    ensures Inv(CancelReleaseStep(s, x, o).value)
  {
    hide Inv, D.Next, E.Next;
    if E.OpIs(s.sessions[x].end, o, E.Taken) {
      CancelTakenKeepsInv(s, x, o);
    } else {
      EndKeepsInv(s, x, o, E.CancelQuit(o, None));
    }
  }

  lemma {:induction false} ReachableInv(steps: seq<Step>)
    requires Exec(steps).Some?
    ensures Inv(Exec(steps).value)
  {
    if steps != [] {
      ReachableInv(steps[..|steps| - 1]);
      StepKeepsInv(Exec(steps[..|steps| - 1]).value, steps[|steps| - 1]);
    }
  }

  // ----- what holds in every run -----

  /** The driver of every session has the key that the session's launch asked for. */
  ghost predicate Requested(s: State) {
    forall x | x in s.sessions :: s.sessions[x].proc in s.d.procs && s.d.procs[s.sessions[x].proc].key == s.sessions[x].key
  }

  /** A step keeps the driver and the key of every session there was. */
  ghost predicate SessionsStand(s: State, s': State) {
    forall x | x in s.sessions ::
      x in s'.sessions && s'.sessions[x].proc == s.sessions[x].proc && s'.sessions[x].key == s.sessions[x].key
  }

  lemma StepKeepsRequested(s: State, step: Step)
    requires Inv(s) && Requested(s) && Next(s, step).Some?
    ensures Requested(Next(s, step).value)
  {
    hide Inv, Next, D.Next;
    RegistryKeysStand(s, step);
    match step
    case StartSession(t, x, h) => StartedAsRequested(s, t, x, h);
    case _ => OldSessionsStand(s, step);
  }

  lemma RegistryKeysStand(s: State, step: Step)
    requires Inv(s) && Next(s, step).Some?
    ensures D.KeysKept(s.d, Next(s, step).value.d)
  {
    hide D.KeysKept, D.Next, E.Next, D.Inv, D.Droppable, RefsOk, SessionsOk, OwnersOk, E.AllGone;
    D.KeysKeptReflexive(s.d);
    match step
    case Launch(l) => D.KeysStand(s.d, l);
    case StartSession(t, x, _) => D.KeysStand(s.d, D.ToGuard(t, x));
    case Local(_, _) =>
    case Release(x, o) => if D.Next(s.d, D.Take(x, o)).Some? { D.KeysStand(s.d, D.Take(x, o)); }
    case IntoInner(x, o) => D.KeysStand(s.d, D.IntoInner(x, o));
    case KillChild(x, _) => D.KeysStand(s.d, D.KillOwned(s.sessions[x].proc));
    case EndProcess(x, _) => D.KeysStand(s.d, D.DropOwned(s.sessions[x].proc));
    case CancelRelease(x, o) =>
      if D.Next(s.d, D.DropTaken(x, o)).Some? { D.KeysStand(s.d, D.DropTaken(x, o)); }
      if D.Next(s.d, D.DropOwned(s.sessions[x].proc)).Some? { D.KeysStand(s.d, D.DropOwned(s.sessions[x].proc)); }
    case DropFields(x, _) => if D.Next(s.d, D.DropGuard(x)).Some? { D.KeysStand(s.d, D.DropGuard(x)); }
  }

  lemma OldSessionsStand(s: State, step: Step)
    requires Next(s, step).Some? && !step.StartSession?
    ensures SessionsStand(s, Next(s, step).value) && Next(s, step).value.sessions.Keys == s.sessions.Keys
  {
    hide D.Next, E.Next, E.AllGone, OfSession;
  }

  /** A lease is on a process of the key its launch asked for. */
  lemma StartedAsRequested(s: State, t: D.TaskId, x: SessionId, h: E.HandleId)
    requires Inv(s) && Requested(s) && Next(s, StartSession(t, x, h)).Some?
    ensures Requested(Next(s, StartSession(t, x, h)).value)
  {
    StartIs(s, t, x, h);
    StartElsewhere(s, t, x);
    D.LeaseIsEntry(s.d, D.Lease(t));
    hide Inv, Next, D.Next;
  }

  lemma {:induction false} ReachableRequested(steps: seq<Step>)
    requires Exec(steps).Some?
    ensures Requested(Exec(steps).value)
  {
    hide Inv, Requested, Next;
    if steps == [] {
      NobodyRequested();
    } else {
      ReachableInv(steps[..|steps| - 1]);
      ReachableRequested(steps[..|steps| - 1]);
      StepKeepsRequested(Exec(steps[..|steps| - 1]).value, steps[|steps| - 1]);
    }
  }

  lemma NobodyRequested()
    ensures Requested(INIT)
  {
  }

  /** The driver of a session has the key its launch asked for. While the guards of two sessions hold their
      references, it was not killed and is the key's entry, so sessions that asked for one key share it. */
  lemma LiveSessionsShareDriver(steps: seq<Step>, x: SessionId, y: SessionId)
    requires Exec(steps).Some?
    requires x in Exec(steps).value.sessions && D.Guard(x) in Exec(steps).value.d.refs
    requires y in Exec(steps).value.sessions && D.Guard(y) in Exec(steps).value.d.refs
    ensures var s := Exec(steps).value;
            && s.sessions[x].proc in s.d.procs
            && var p := s.d.procs[s.sessions[x].proc];
            && p.key == s.sessions[x].key
            && p.hasChild && p.key in s.d.drivers && s.d.drivers[p.key] == s.sessions[x].proc
            && (s.sessions[y].key == s.sessions[x].key ==> s.sessions[y].proc == s.sessions[x].proc)
  {
    var s := Exec(steps).value;
    ReachableInv(steps);
    ReachableRequested(steps);
    assert s.d.procs[s.sessions[x].proc].key == s.sessions[x].key && s.d.procs[s.sessions[y].proc].key == s.sessions[y].key;
    hide *;
    ReleaseFacts(s, x, 0);
    ReleaseFacts(s, y, 0);
    D.LeaseIsEntry(s.d, D.Guard(x));
    D.LeaseIsEntry(s.d, D.Guard(y));
  }

  /** In any run a session ends at most once, by a DELETE or by `leak`, and each of its
      handles makes at most one fallback attempt. */
  lemma SessionsEndOnce(steps: seq<Step>, x: SessionId)
    requires Exec(steps).Some? && x in Exec(steps).value.sessions
    ensures var e := Exec(steps).value.sessions[x].end;
            && e.deleteOks + e.leakOks <= 1
            && (e.deleteOks + e.leakOks == 1 <==> e.cell.Set?)
            && (forall h | h in e.handles :: e.handles[h].attempts <= 1)
  {
    ReachableInv(steps);
    ReleaseFacts(Exec(steps).value, x, 0);
    hide *;
    E.EndsAtMostOnce(Exec(steps).value.sessions[x].end);
  }

  /** A process that no longer runs has no session whose guard could still need it. */
  lemma StoppedIsReleased(s: State, x: SessionId)
    requires Inv(s) && x in s.sessions
    requires s.sessions[x].proc in s.d.procs && !s.d.procs[s.sessions[x].proc].hasChild
    ensures E.EndAttempted(s.sessions[x].end)
  {
    hide Inv, D.Inv, E.Inv, E.EndAttempted;
    ReleaseFacts(s, x, 0);
    if D.Guard(x) in s.d.refs {
      D.LeaseIsEntry(s.d, D.Guard(x));
    }
  }

  /** A step that stops a process changes at most the session that takes it, and that one
      had already attempted its end. */
  lemma StopperAttempted(s: State, step: Step, p: D.DriverId, x: SessionId)
    requires Inv(s) && Next(s, step).Some? && x in s.sessions && p in s.d.procs && s.d.procs[p].hasChild
    requires p in Next(s, step).value.d.procs && !Next(s, step).value.d.procs[p].hasChild
    ensures var s' := Next(s, step).value;
            Attempted(s, s', x)
  {
    hide *;
    ReleaseFacts(s, x, 0);
    match step
    case Launch(l) => LaunchAttempted(s, l, x);
    case KillChild(y, o) => KillAttempted(s, x, y, o);
    case EndProcess(y, o) => EndProcessAttempted(s, x, y, o);
    case CancelRelease(y, o) => CancelAttempted(s, x, y, o);
    case IntoInner(y, o) => IntoInnerAttempted(s, x, y, o);
    case DropFields(y, h) => FieldsAttempted(s, x, y, h, p);
    case StartSession(t, y, h) => StartStopsNothing(s, t, y, h);
    case Release(y, o) => ReleaseStopsNothing(s, y, o);
    case Local(y, e) => LocalStopsNothing(s, y, e);
  }

  lemma LaunchAttempted(s: State, step: D.Step, x: SessionId)
    requires x in s.sessions && Next(s, Launch(step)).Some?
    ensures Attempted(s, Next(s, Launch(step)).value, x)
  {
    hide D.Next, E.EndAttempted;
  }

  lemma KillAttempted(s: State, x: SessionId, y: SessionId, o: E.OpId)
    requires x in s.sessions && Next(s, KillChild(y, o)).Some?
    ensures Attempted(s, Next(s, KillChild(y, o)).value, x)
  {
    hide D.Next, E.EndAttempted;
  }

  lemma EndProcessAttempted(s: State, x: SessionId, y: SessionId, o: E.OpId)
    requires x in s.sessions && E.Inv(s.sessions[x].end) && Next(s, EndProcess(y, o)).Some?
    ensures Attempted(s, Next(s, EndProcess(y, o)).value, x)
  {
    SameAfterOp(s.sessions[x].end, E.EndDone(o));
    hide D.Next, E.Next, E.Inv, E.EndAttempted;
  }

  ghost predicate Attempted(s: State, s': State, x: SessionId)
    requires x in s.sessions
  {
    && x in s'.sessions && s'.sessions[x].proc == s.sessions[x].proc
    && (E.EndAttempted(s'.sessions[x].end) ==> E.EndAttempted(s.sessions[x].end))
  }

  lemma CancelAttempted(s: State, x: SessionId, y: SessionId, o: E.OpId)
    requires x in s.sessions && E.Inv(s.sessions[x].end) && Next(s, CancelRelease(y, o)).Some?
    ensures Attempted(s, Next(s, CancelRelease(y, o)).value, x)
  {
    hide E.EndAttempted, E.Inv, E.Next, D.Next;
    SameAfterOp(s.sessions[x].end, E.CancelQuit(o, None));
  }

  lemma IntoInnerAttempted(s: State, x: SessionId, y: SessionId, o: E.OpId)
    requires x in s.sessions && E.Inv(s.sessions[x].end) && Next(s, IntoInner(y, o)).Some?
    ensures Attempted(s, Next(s, IntoInner(y, o)).value, x)
  {
    hide E.EndAttempted, E.Inv, E.Next, D.Next;
    SameAfterOp(s.sessions[x].end, E.Unwrapped(o, true));
    SameAfterOp(s.sessions[x].end, E.Unwrapped(o, false));
  }

  /** Dropping a handle stops a process only through the last handle of its session. */
  lemma FieldsAttempted(s: State, x: SessionId, y: SessionId, h: E.HandleId, p: D.DriverId)
    requires x in s.sessions && E.Inv(s.sessions[x].end) && Next(s, DropFields(y, h)).Some?
    requires p in s.d.procs && s.d.procs[p].hasChild
    requires var d := Next(s, DropFields(y, h)).value.d; p in d.procs && !d.procs[p].hasChild
    ensures Attempted(s, Next(s, DropFields(y, h)).value, x)
  {
    hide E.EndAttempted, E.Inv, E.Next, D.Next, E.AllGone;
    if x == y { LastFields(s.sessions[x].end, h); }
  }

  lemma LocalStopsNothing(s: State, x: SessionId, step: E.Step)
    requires Next(s, Local(x, step)).Some?
    ensures Next(s, Local(x, step)).value.d.procs == s.d.procs
  {
    hide E.Next, OfSession;
  }

  lemma SameAfterOp(e: E.State, step: E.Step)
    requires E.Inv(e) && (step.EndDone? || step.CancelQuit? || step.Unwrapped?)
    ensures E.Next(e, step).Some? && (step.CancelQuit? ==> e.ops[step.op].pc == E.Taken || e.ops[step.op].pc == E.Ending) ==>
              E.EndAttempted(E.Next(e, step).value) == E.EndAttempted(e)
  {
    if E.Next(e, step).Some? {
      E.OpFacts(e, step.op);
    }
  }

  lemma StartStopsNothing(s: State, t: D.TaskId, x: SessionId, h: E.HandleId)
    requires Next(s, StartSession(t, x, h)).Some?
    ensures Next(s, StartSession(t, x, h)).value.d.procs == s.d.procs
  {
    StartIs(s, t, x, h);
    StartElsewhere(s, t, x);
    hide *;
  }

  lemma ReleaseStopsNothing(s: State, x: SessionId, o: E.OpId)
    requires Next(s, Release(x, o)).Some?
    ensures Next(s, Release(x, o)).value.d.procs == s.d.procs
  {
    hide E.Next;
  }

  /** The end-to-end order: whatever step stops a managed driver, every session started on it had
      its quit cell set, or all its handles had run their fallback, before that step. */
  lemma DriverOutlivesSessions(steps: seq<Step>, step: Step, x: SessionId)
    requires Exec(steps + [step]).Some? && Exec(steps).Some? && x in Exec(steps).value.sessions
    requires var s, s' := Exec(steps).value, Exec(steps + [step]).value;
             var p := s.sessions[x].proc;
             p in s.d.procs && s.d.procs[p].hasChild && p in s'.d.procs && !s'.d.procs[p].hasChild
    ensures E.EndAttempted(Exec(steps).value.sessions[x].end)
  {
    var s := Exec(steps).value;
    assert (steps + [step])[..|steps|] == steps;
    ReachableInv(steps);
    StepKeepsInv(s, step);
    hide Inv, Next, E.EndAttempted;
    StopperAttempted(s, step, s.sessions[x].proc, x);
    StoppedIsReleased(Next(s, step).value, x);
  }

  predicate Quiet(s: State) {
    && (forall t | t in s.d.tasks :: s.d.tasks[t].pc == D.Finished)
    && (forall x | x in s.sessions ::
          E.AllGone(s.sessions[x].end)
          && forall o | o in s.sessions[x].end.ops :: s.sessions[x].end.ops[o].pc == E.Finished)
  }

  /** No driver is left behind: once every launch, quit and handle is done, each process has ended
      and was announced exactly once. */
  lemma NothingLeftRunning(steps: seq<Step>, p: D.DriverId)
    requires Exec(steps).Some? && Quiet(Exec(steps).value) && p in Exec(steps).value.d.procs
    ensures var d := Exec(steps).value.d;
            && d.procs[p].fate == D.Ended && !d.procs[p].hasChild
            && multiset(d.trace)[D.DriverShutdown(p)] == 1 && multiset(d.trace)[D.Killed(p)] == 1
  {
    var s := Exec(steps).value;
    ReachableInv(steps);
    hide Inv, D.Inv, Exec, Next;
    InvParts(s);
    D.InvFacts(s.d);
    QuietRefs(s);
    D.SharedMeansHeld(s.d, p);
    assert OwnerOk(s.sessions, p, s.d.procs[p]);
  }

  lemma QuietRefs(s: State)
    requires Inv(s) && Quiet(s)
    ensures s.d.refs == map[]
  {
    InvParts(s);
    D.InvFacts(s.d);
    hide Inv, SessionsOk, OwnersOk, E.Inv, D.Counted, D.EndsOnce;
    forall h | h in s.d.refs ensures false {
      assert RefOk(s.sessions, h, s.d.refs[h]);
      if h.Own? || h.Lease? { D.LaunchHolders(s.d, h); }
    }
  }
}
