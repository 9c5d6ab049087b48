/** How one session ends: `quit`, `leak` and the synchronous `Drop` fallback race on one once-cell.

    Every handle made by `clone_with_config` shares the cell. A running `quit` keeps its
    handle alive, so a handle is dropped only when no `quit` on it is unfinished. The fallback
    builds an inner handle on the same cell but without the driver guard; the inner handle has a
    `Drop` of its own, which would start another fallback if it saw an uninitialised cell. */
module SessionEnd {
  import opened Wrappers

  type HandleId = nat
  type OpId = nat

  datatype How = Deleted | Leaked

  /** The semaphore of the once-cell has one permit: it is free, with the op that initialises the cell, or assigned to
      a waiting op that has not run since. A set cell has closed it. */
  datatype Cell = Uninit | Initialising(op: OpId) | Granted(op: OpId) | Set(how: How)

  /** The cell the inner handle is left with by `SessionDropGuard::drop`. */
  datatype CellRef = SharedCell | AlwaysInit

  datatype HandlePc =
    | Live
    | Fallback(op: OpId)                  // the cleanup thread runs the inner handle's `quit`
    | InnerGuardDrop                      // that `quit` is over, or no runtime could be built
    | InnerHandleDrop(cell: CellRef)
    | DroppingFields                      // `Drop::drop` has returned; the guard is still held
    | Gone

  datatype Handle = Handle(pc: HandlePc, attempts: nat)

  datatype Caller = ByHandle(handle: HandleId) | ByFallback(handle: HandleId)

  datatype OpPc = WaitCell | Deleting | CellDone | Taken | Ending | Finished

  datatype Op = Op(caller: Caller, pc: OpPc)

  datatype State = State(
    cell: Cell,
    handles: map<HandleId, Handle>,
    ops: map<OpId, Op>,
    deleteOks: nat,                       // DELETE requests reported successful
    leakOks: nat)                         // calls of `leak` that returned `Ok`

  function Init(h: HandleId): State {
    State(Uninit, map[h := Handle(Live, 0)], map[], 0, 0)
  }

  datatype Step =
    | CloneHandle(handle: HandleId, copy: HandleId)
    | StartQuit(handle: HandleId, op: OpId)
    | EnterCell(op: OpId)
    | DeleteReply(op: OpId, ok: bool, next: Option<OpId>)   // `next`: the waiting op a returned permit goes to
    | CancelQuit(op: OpId, next: Option<OpId>)
    | Leak(handle: HandleId)
    | Release(op: OpId, had: bool)        // `had`: the guard still held a reference to take
    | Unwrapped(op: OpId, last: bool)     // `last`: the reference was the last one
    | EndDone(op: OpId)
    | BeginDrop(handle: HandleId, op: OpId, runtime: bool)
    | FallbackDone(handle: HandleId)
    | InnerDrop(handle: HandleId, op: OpId)
    | DropFields(handle: HandleId)

  function OpAt(s: State, o: OpId, pc: OpPc): State
    requires o in s.ops
  {
    s.(ops := s.ops[o := s.ops[o].(pc := pc)])
  }

  function HandleAt(s: State, h: HandleId, pc: HandlePc): State
    requires h in s.handles
  {
    s.(handles := s.handles[h := s.handles[h].(pc := pc)])
  }

  predicate Is(s: State, h: HandleId, pc: HandlePc) {
    h in s.handles && s.handles[h].pc == pc
  }

  predicate OpIs(s: State, o: OpId, pc: OpPc) {
    o in s.ops && s.ops[o].pc == pc
  }

  /** `OnceCell::initialized` on the cell an inner handle holds. */
  predicate Initialised(s: State, cell: CellRef) {
    cell == AlwaysInit || s.cell.Set?
  }

  predicate Busy(s: State, h: HandleId) {
    exists o :: o in s.ops && s.ops[o].caller == ByHandle(h) && s.ops[o].pc != Finished
  }

  /** One run of the fallback: an inner `quit` on a fresh runtime, unless the runtime cannot be built. */
  function StartFallback(s: State, h: HandleId, o: OpId, runtime: bool): State
    requires h in s.handles
  {
    var handle := s.handles[h];
    if runtime
    then s.(handles := s.handles[h := Handle(Fallback(o), handle.attempts + 1)],
            ops := s.ops[o := Op(ByFallback(h), WaitCell)])
    else s.(handles := s.handles[h := Handle(InnerGuardDrop, handle.attempts + 1)])
  }

  function EnterCellStep(s: State, o: OpId): Option<State> {
    if !OpIs(s, o, WaitCell) then None
    else match s.cell
      case Uninit => Some(OpAt(s, o, Deleting).(cell := Initialising(o)))
      case Granted(p) => if p == o then Some(OpAt(s, o, Deleting).(cell := Initialising(o))) else None
      case Set(_) => Some(OpAt(s, o, CellDone))
      case Initialising(_) => None        // another initialiser holds the cell's permit
  }

  /** Does op `o` hold the permit, or has it just been assigned to it? */
  predicate HasPermit(s: State, o: OpId) {
    s.cell == Initialising(o) || s.cell == Granted(o)
  }

  /** A returned permit goes to an op in the semaphore's queue, if there is one. */
  predicate CanPassTo(s: State, o: OpId, next: Option<OpId>) {
    next.Some? ==> next.value != o && OpIs(s, next.value, WaitCell)
  }

  function Returned(next: Option<OpId>): Cell {
    match next
    case None => Uninit
    case Some(o) => Granted(o)
  }

  function DeleteReplyStep(s: State, o: OpId, ok: bool, next: Option<OpId>): Option<State> {
    if !OpIs(s, o, Deleting) || !CanPassTo(s, o, next) || (ok && next.Some?) then None
    else if ok then Some(OpAt(s, o, CellDone).(cell := Set(Deleted), deleteOks := s.deleteOks + 1))
    else Some(OpAt(s, o, Finished).(cell := Returned(next)))
  }

  /** Dropping a `quit` future gives the permit back, if it has it. The fallback's is never dropped early. */
  function CancelQuitStep(s: State, o: OpId, next: Option<OpId>): Option<State> {
    if o !in s.ops || s.ops[o].caller.ByFallback? || s.ops[o].pc == Finished then None
    else if !CanPassTo(s, o, next) || (next.Some? && !HasPermit(s, o)) then None
    else Some(OpAt(s, o, Finished).(cell := if HasPermit(s, o) then Returned(next) else s.cell))
  }

  function ReleaseStep(s: State, o: OpId, had: bool): Option<State> {
    if !OpIs(s, o, CellDone) then None
    else if had && s.ops[o].caller.ByHandle? then Some(OpAt(s, o, Taken))
    else if had then None                 // the inner handle carries no guard
    else Some(OpAt(s, o, Finished))
  }

  function InnerDropStep(s: State, h: HandleId, o: OpId): Option<State> {
    if h !in s.handles then None
    else match s.handles[h].pc
      case InnerGuardDrop => Some(HandleAt(s, h, InnerHandleDrop(if s.cell.Set? then SharedCell else AlwaysInit)))
      case InnerHandleDrop(cell) =>
        if Initialised(s, cell) then Some(HandleAt(s, h, DroppingFields))
        else if o in s.ops then None
        else Some(StartFallback(s, h, o, true))
      case _ => None
  }

  function Next(s: State, step: Step): Option<State> {
    match step
    case CloneHandle(h, copy) =>
      if !Is(s, h, Live) || copy in s.handles then None
      else Some(s.(handles := s.handles[copy := Handle(Live, 0)]))
    case StartQuit(h, o) =>
      if !Is(s, h, Live) || o in s.ops then None
      else Some(s.(ops := s.ops[o := Op(ByHandle(h), WaitCell)]))
    case EnterCell(o) => EnterCellStep(s, o)
    case DeleteReply(o, ok, next) => DeleteReplyStep(s, o, ok, next)
    case CancelQuit(o, next) => CancelQuitStep(s, o, next)
    case Leak(h) =>
      if !Is(s, h, Live) then None
      else if s.cell == Uninit then Some(s.(cell := Set(Leaked), leakOks := s.leakOks + 1))
      else Some(s)                        // `AlreadyQuit`, also while the permit is somebody's
    case Release(o, had) => ReleaseStep(s, o, had)
    case Unwrapped(o, last) =>
      if !OpIs(s, o, Taken) then None else Some(OpAt(s, o, if last then Ending else Finished))
    case EndDone(o) => if !OpIs(s, o, Ending) then None else Some(OpAt(s, o, Finished))
    case BeginDrop(h, o, runtime) =>
      if !Is(s, h, Live) || Busy(s, h) || o in s.ops then None
      else if s.cell.Set? then Some(HandleAt(s, h, DroppingFields))
      else Some(StartFallback(s, h, o, runtime))
    case FallbackDone(h) =>
      if h !in s.handles || !s.handles[h].pc.Fallback? || !OpIs(s, s.handles[h].pc.op, Finished) then None
      else Some(HandleAt(s, h, InnerGuardDrop))
    case InnerDrop(h, o) => InnerDropStep(s, h, o)
    case DropFields(h) => if !Is(s, h, DroppingFields) then None else Some(HandleAt(s, h, Gone))
  }

  function Exec(h: HandleId, steps: seq<Step>): Option<State> {
    if steps == [] then Some(Init(h))
    else match Exec(h, steps[..|steps| - 1])
      case None => None
      case Some(s) => Next(s, steps[|steps| - 1])
  }

  // ----- the invariant -----

  /** Only the op that holds the permit is deleting, one it was assigned to waits, and an op past the cell saw it set. */
  ghost predicate OpOk(cell: Cell, o: OpId, op: Op) {
    && (op.pc == Deleting <==> cell == Initialising(o))
    && (cell == Granted(o) ==> op.pc == WaitCell)
    && (op.pc == CellDone || op.pc == Taken || op.pc == Ending ==> cell.Set?)
    && (op.pc == Taken || op.pc == Ending ==> op.caller.ByHandle?)
  }

  ghost predicate HandleOk(cell: Cell, ops: map<OpId, Op>, h: HandleId, handle: Handle) {
    match handle.pc
    case Live => handle.attempts == 0
    case Fallback(o) => handle.attempts == 1 && o in ops && ops[o].caller == ByFallback(h)
    case InnerGuardDrop => handle.attempts == 1
    case InnerHandleDrop(c) => handle.attempts == 1 && (c == SharedCell ==> cell.Set?)
    case DroppingFields => handle.attempts == 1 || (handle.attempts == 0 && cell.Set?)
    case Gone => handle.attempts == 1 || (handle.attempts == 0 && cell.Set?)
  }

  /** The handle of an unfinished `quit` is live: that `quit` keeps it so. */
  ghost predicate CallerOk(handles: map<HandleId, Handle>, op: Op) {
    op.caller.ByHandle? && op.pc != Finished ==> op.caller.handle in handles && handles[op.caller.handle].pc == Live
  }

  ghost predicate OpsOk(cell: Cell, ops: map<OpId, Op>, handles: map<HandleId, Handle>) {
    forall o | o in ops :: OpOk(cell, o, ops[o]) && CallerOk(handles, ops[o])
  }

  ghost predicate HandlesOk(cell: Cell, ops: map<OpId, Op>, handles: map<HandleId, Handle>) {
    forall h | h in handles :: HandleOk(cell, ops, h, handles[h])
  }

  ghost predicate CellOk(cell: Cell, ops: map<OpId, Op>, deleteOks: nat, leakOks: nat) {
    && (cell.Initialising? || cell.Granted? ==> cell.op in ops)
    && deleteOks == (if cell == Set(Deleted) then 1 else 0)
    && leakOks == (if cell == Set(Leaked) then 1 else 0)
  }

  ghost predicate Inv(s: State) {
    && OpsOk(s.cell, s.ops, s.handles)
    && HandlesOk(s.cell, s.ops, s.handles)
    && CellOk(s.cell, s.ops, s.deleteOks, s.leakOks)
  }

  /** The cell never leaves `Set`; other than that only its permit holder changes it. */
  lemma OpMove(s: State, o: OpId, pc: OpPc, cell: Cell)
    requires OpsOk(s.cell, s.ops, s.handles) && HandlesOk(s.cell, s.ops, s.handles) && o in s.ops
    requires pc != s.ops[o].pc && s.ops[o].pc != Finished
    requires OpOk(cell, o, s.ops[o].(pc := pc))
    requires cell == s.cell || HasPermit(s, o) || (s.cell == Uninit && cell == Initialising(o))
    requires cell.Initialising? ==> cell == s.cell || cell.op == o
    requires cell.Granted? && cell != s.cell ==> CanPassTo(s, o, Some(cell.op))
    ensures OpsOk(cell, s.ops[o := s.ops[o].(pc := pc)], s.handles)
    ensures HandlesOk(cell, s.ops[o := s.ops[o].(pc := pc)], s.handles)
  {
    var ops := s.ops[o := s.ops[o].(pc := pc)];
    forall p | p in ops ensures OpOk(cell, p, ops[p]) && CallerOk(s.handles, ops[p]) {
      assert OpOk(s.cell, p, s.ops[p]) && CallerOk(s.handles, s.ops[p]);
    }
    forall h | h in s.handles ensures HandleOk(cell, ops, h, s.handles[h]) {
      assert HandleOk(s.cell, s.ops, h, s.handles[h]);
    }
  }

  lemma OpAdded(s: State, o: OpId, op: Op)
    requires OpsOk(s.cell, s.ops, s.handles) && HandlesOk(s.cell, s.ops, s.handles) && o !in s.ops
    requires CellOk(s.cell, s.ops, s.deleteOks, s.leakOks)
    requires op.pc == WaitCell && CallerOk(s.handles, op)
    ensures OpsOk(s.cell, s.ops[o := op], s.handles) && HandlesOk(s.cell, s.ops[o := op], s.handles)
  {
    forall h | h in s.handles ensures HandleOk(s.cell, s.ops[o := op], h, s.handles[h]) {
      assert HandleOk(s.cell, s.ops, h, s.handles[h]);
    }
  }

  lemma HandleMove(s: State, h: HandleId, handle: Handle)
    requires OpsOk(s.cell, s.ops, s.handles) && HandlesOk(s.cell, s.ops, s.handles)
    requires HandleOk(s.cell, s.ops, h, handle)
    requires Is(s, h, Live) ==> !Busy(s, h)
    ensures OpsOk(s.cell, s.ops, s.handles[h := handle]) && HandlesOk(s.cell, s.ops, s.handles[h := handle])
  {
    var handles := s.handles[h := handle];
    forall o | o in s.ops ensures CallerOk(handles, s.ops[o]) {
      assert CallerOk(s.handles, s.ops[o]);
    }
    forall g | g in handles ensures HandleOk(s.cell, s.ops, g, handles[g]) {
      assert g in s.handles ==> HandleOk(s.cell, s.ops, g, s.handles[g]);
    }
  }

  lemma OpFacts(s: State, o: OpId)
    requires Inv(s) && o in s.ops
    ensures OpOk(s.cell, o, s.ops[o])
  {
  }

  lemma HandleFacts(s: State, h: HandleId)
    requires Inv(s) && h in s.handles
    ensures HandleOk(s.cell, s.ops, h, s.handles[h])
  {
  }

  lemma OpStepKeepsInv(s: State, step: Step, o: OpId)
    requires Inv(s) && Next(s, step).Some? && o in s.ops
    requires step == EnterCell(o) || (step.DeleteReply? && step.op == o) || (step.CancelQuit? && step.op == o)
             || (step.Release? && step.op == o) || (step.Unwrapped? && step.op == o) || step == EndDone(o)
    ensures Inv(Next(s, step).value)
  {
    hide OpsOk, HandlesOk;
    OpFacts(s, o);
    var s' := Next(s, step).value;
    OpMove(s, o, s'.ops[o].pc, s'.cell);
  }

  lemma LeakKeepsInv(s: State, h: HandleId)
    requires Inv(s) && s.cell == Uninit
    ensures Inv(s.(cell := Set(Leaked), leakOks := s.leakOks + 1))
  {
    forall o | o in s.ops ensures OpOk(Set(Leaked), o, s.ops[o]) {
      assert OpOk(s.cell, o, s.ops[o]);
    }
    forall g | g in s.handles ensures HandleOk(Set(Leaked), s.ops, g, s.handles[g]) {
      assert HandleOk(s.cell, s.ops, g, s.handles[g]);
    }
  }

  lemma FallbackKeepsInv(s: State, h: HandleId, o: OpId, runtime: bool)
    requires Inv(s) && Is(s, h, Live) && !Busy(s, h) && o !in s.ops
    ensures Inv(StartFallback(s, h, o, runtime))
  {
    HandleFacts(s, h);
    if runtime {
      OpAdded(s, o, Op(ByFallback(h), WaitCell));
      var s1 := s.(ops := s.ops[o := Op(ByFallback(h), WaitCell)]);
      assert Inv(s1) && !Busy(s1, h);
      hide OpsOk, HandlesOk;
      HandleMove(s1, h, Handle(Fallback(o), 1));
    } else {
      HandleMove(s, h, Handle(InnerGuardDrop, 1));
    }
  }

  lemma HandleStepKeepsInv(s: State, h: HandleId, handle: Handle)
    requires Inv(s) && HandleOk(s.cell, s.ops, h, handle) && (Is(s, h, Live) ==> !Busy(s, h))
    ensures Inv(s.(handles := s.handles[h := handle]))
  {
    hide OpsOk, HandlesOk;
    HandleMove(s, h, handle);
  }

  lemma StartQuitKeepsInv(s: State, h: HandleId, o: OpId)
    requires Inv(s) && Is(s, h, Live) && o !in s.ops
    ensures Inv(s.(ops := s.ops[o := Op(ByHandle(h), WaitCell)]))
  {
    hide OpsOk, HandlesOk;
    OpAdded(s, o, Op(ByHandle(h), WaitCell));
  }

  /** One step from a state that satisfies the invariant leads to one that does. */
  lemma StepKeepsInv(s: State, step: Step)
    requires Inv(s) && Next(s, step).Some?
    ensures Inv(Next(s, step).value)
  {
    hide Inv, Busy, EnterCellStep, DeleteReplyStep, CancelQuitStep, ReleaseStep, StartFallback;
    match step
    case CloneHandle(h, copy) => HandleStepKeepsInv(s, copy, Handle(Live, 0));
    case StartQuit(h, o) => StartQuitKeepsInv(s, h, o);
    case EnterCell(o) => OpOfStep(s, step, o); OpStepKeepsInv(s, step, o);
    case DeleteReply(o, _, _) => OpOfStep(s, step, o); OpStepKeepsInv(s, step, o);
    case CancelQuit(o, _) => OpOfStep(s, step, o); OpStepKeepsInv(s, step, o);
    case Leak(h) => if s.cell == Uninit { LeakKeepsInv(s, h); }
    case Release(o, _) => OpOfStep(s, step, o); OpStepKeepsInv(s, step, o);
    case Unwrapped(o, _) => OpStepKeepsInv(s, step, o);
    case EndDone(o) => OpStepKeepsInv(s, step, o);
    case BeginDrop(h, o, runtime) =>
      HandleFacts(s, h);
      if s.cell.Set? { HandleStepKeepsInv(s, h, s.handles[h].(pc := DroppingFields)); }
      else { FallbackKeepsInv(s, h, o, runtime); }
    case FallbackDone(h) => HandleFacts(s, h); HandleStepKeepsInv(s, h, s.handles[h].(pc := InnerGuardDrop));
    case InnerDrop(h, o) =>
      HandleFacts(s, h);
      HandleStepKeepsInv(s, h, Next(s, step).value.handles[h]);
    case DropFields(h) => HandleFacts(s, h); HandleStepKeepsInv(s, h, s.handles[h].(pc := Gone));
  }

  lemma OpOfStep(s: State, step: Step, o: OpId)
    requires Next(s, step).Some?
    requires step == EnterCell(o) || (step.DeleteReply? && step.op == o) || (step.CancelQuit? && step.op == o)
             || (step.Release? && step.op == o)
    ensures o in s.ops
  {
  }

  lemma {:induction false} ReachableInv(h: HandleId, steps: seq<Step>)
    requires Exec(h, steps).Some?
    ensures Inv(Exec(h, steps).value)
  {
    if steps != [] {
      ReachableInv(h, steps[..|steps| - 1]);
      StepKeepsInv(Exec(h, steps[..|steps| - 1]).value, steps[|steps| - 1]);
    }
  }

  // ----- what holds in every run -----

  /** At most one DELETE is reported successful, not together with a successful `leak`, and
      no handle makes a second fallback attempt. */
  lemma OneSuccessfulEnd(h: HandleId, steps: seq<Step>)
    requires Exec(h, steps).Some?
    ensures var s := Exec(h, steps).value;
            && s.deleteOks + s.leakOks <= 1
            && (s.deleteOks == 1 <==> s.cell == Set(Deleted))
            && (s.leakOks == 1 <==> s.cell == Set(Leaked))
            && (forall g | g in s.handles :: s.handles[g].attempts <= 1)
  {
    ReachableInv(h, steps);
    EndsAtMostOnce(Exec(h, steps).value);
  }

  lemma EndsAtMostOnce(s: State)
    requires Inv(s)
    ensures s.deleteOks + s.leakOks <= 1 && (s.deleteOks + s.leakOks == 1 <==> s.cell.Set?)
    ensures forall g | g in s.handles :: s.handles[g].attempts <= 1
  {
    forall g | g in s.handles ensures s.handles[g].attempts <= 1 {
      HandleFacts(s, g);
    }
    match s.cell
    case Set(Deleted) =>
    case Set(Leaked) =>
    case _ =>
  }

  /** A set cell stays set the same way, so whatever ended the session first is final. */
  lemma SetIsFinal(s: State, step: Step)
    requires Inv(s) && Next(s, step).Some? && s.cell.Set?
    ensures Next(s, step).value.cell == s.cell
    ensures Next(s, step).value.deleteOks == s.deleteOks && Next(s, step).value.leakOks == s.leakOks
  {
    forall o | o in s.ops ensures s.ops[o].pc != Deleting {
      OpFacts(s, o);
    }
  }

  /** `leak` succeeds exactly when the session was not ended, no DELETE is in flight, and no waiting `quit` has been
      assigned the permit. */
  lemma LeakSucceedsIff(s: State, h: HandleId)
    requires Inv(s) && Is(s, h, Live)
    ensures var s' := Next(s, Leak(h)).value;
            s'.leakOks == s.leakOks + 1 <==>
            !s.cell.Set? && forall o | o in s.ops :: s.ops[o].pc != Deleting && s.cell != Granted(o)
  {
    if s.cell.Initialising? {
      assert OpOk(s.cell, s.cell.op, s.ops[s.cell.op]);
    }
    forall o | o in s.ops ensures s.ops[o].pc == Deleting <==> s.cell == Initialising(o) {
      assert OpOk(s.cell, o, s.ops[o]);
    }
  }

  /** A step that ends an op's DELETE without success. */
  predicate FailsDelete(s: State, step: Step) {
    (step.DeleteReply? && !step.ok) || (step.CancelQuit? && OpIs(s, step.op, Deleting))
  }

  ghost predicate FailedAt(h: HandleId, steps: seq<Step>, i: nat)
    requires i < |steps|
  {
    Exec(h, steps[..i]).Some? && FailsDelete(Exec(h, steps[..i]).value, steps[i])
  }

  /** A waiting `quit` is assigned the permit only after the DELETE of another one failed or was cancelled. */
  lemma {:induction false} GrantedAfterFailure(h: HandleId, steps: seq<Step>)
    requires Exec(h, steps).Some? && Exec(h, steps).value.cell.Granted?
    ensures exists i | 0 <= i < |steps| :: FailedAt(h, steps, i)
  {
    var n := |steps| - 1;
    var init := steps[..n];
    var s := Exec(h, init).value;
    ReachableInv(h, init);
    GrantSource(s, steps[n]);
    if s.cell.Granted? {
      GrantedAfterFailure(h, init);
      var i :| 0 <= i < |init| && FailedAt(h, init, i);
      assert init[..i] == steps[..i];
      assert FailedAt(h, steps, i);
    } else {
      assert FailedAt(h, steps, n);
    }
  }

  lemma GrantSource(s: State, step: Step)
    requires Inv(s) && Next(s, step).Some? && Next(s, step).value.cell.Granted?
    ensures s.cell.Granted? || FailsDelete(s, step)
  {
    if step.CancelQuit? {
      OpFacts(s, step.op);
    }
    hide Inv;
  }

  // ----- each drop ends after one attempt -----

  predicate Dropping(s: State, h: HandleId) {
    h in s.handles && s.handles[h].pc != Live && (s.handles[h].pc.Fallback? ==> s.handles[h].pc.op in s.ops)
  }

  /** How many steps of its own a handle's `Drop` still has to make, at most. */
  function Remaining(s: State, h: HandleId): nat
    requires Dropping(s, h)
  {
    match s.handles[h].pc
    case Fallback(o) => (match s.ops[o].pc
                         case WaitCell => 7 case Deleting => 6 case CellDone => 5
                         case Taken => 5 case Ending => 5 case Finished => 4)
    case InnerGuardDrop => 3
    case InnerHandleDrop(_) => 2
    case DroppingFields => 1
    case Gone => 0
  }

  /** Nothing lengthens a drop that has begun, and it makes a single attempt:
      the inner handle's own `Drop` never starts another fallback. */
  lemma DropNeverRecurses(s: State, step: Step, h: HandleId)
    requires Inv(s) && Next(s, step).Some? && Dropping(s, h)
    ensures var s' := Next(s, step).value;
            Dropping(s', h) && Remaining(s', h) <= Remaining(s, h) && s'.handles[h].attempts == s.handles[h].attempts <= 1
  {
    hide Inv;
    HandleFacts(s, h);
    match step
    case EnterCell(o) => OpNeverLengthens(s, step, o, h);
    case DeleteReply(o, _, _) => OpNeverLengthens(s, step, o, h);
    case CancelQuit(o, _) => OpNeverLengthens(s, step, o, h);
    case Release(o, _) => OpNeverLengthens(s, step, o, h);
    case Unwrapped(o, _) => OpNeverLengthens(s, step, o, h);
    case EndDone(o) => OpNeverLengthens(s, step, o, h);
    case _ =>
  }

  lemma OpNeverLengthens(s: State, step: Step, o: OpId, h: HandleId)
    requires Inv(s) && Next(s, step).Some? && Dropping(s, h)
    requires (step.EnterCell? || step.DeleteReply? || step.CancelQuit? || step.Release? || step.Unwrapped? || step.EndDone?)
             && step.op == o
    ensures var s' := Next(s, step).value;
            Dropping(s', h) && Remaining(s', h) <= Remaining(s, h) && s'.handles[h] == s.handles[h]
  {
    if o in s.ops {
      OpFacts(s, o);
    }
    HandleFacts(s, h);
    hide Inv, StartFallback, InnerDropStep;
  }

  /** The step the drop of `h` makes next. */
  function NextOwn(s: State, h: HandleId): Step
    requires Dropping(s, h)
  {
    match s.handles[h].pc
    case Fallback(o) => (match s.ops[o].pc
                         case WaitCell => EnterCell(o) case Deleting => DeleteReply(o, false, None)
                         case CellDone => Release(o, false) case _ => FallbackDone(h))
    case InnerGuardDrop => InnerDrop(h, 0)
    case InnerHandleDrop(_) => InnerDrop(h, 0)
    case _ => DropFields(h)
  }

  /** The fallback of `h` waits for another call, whose DELETE is in flight or which was just assigned the permit
      of one that failed. */
  predicate Blocked(s: State, h: HandleId) {
    && h in s.handles && s.handles[h].pc.Fallback?
    && ((s.cell.Initialising? && s.cell.op != s.handles[h].pc.op && OpIs(s, s.cell.op, Deleting))
        || (s.cell.Granted? && s.cell.op != s.handles[h].pc.op && OpIs(s, s.cell.op, WaitCell)))
  }

  /** A drop under way waits for nothing but another initialiser of the cell, and each of
      its steps brings it strictly nearer to its end. */
  lemma DropTerminates(s: State, h: HandleId)
    requires Inv(s) && Dropping(s, h) && s.handles[h].pc != Gone
    ensures var step := NextOwn(s, h);
            || (Next(s, step).Some? && Dropping(Next(s, step).value, h)
                && Remaining(Next(s, step).value, h) < Remaining(s, h))
            || Blocked(s, h)
  {
    HandleFacts(s, h);
    if s.handles[h].pc.Fallback? {
      OpFacts(s, s.handles[h].pc.op);
    }
    if s.cell.Initialising? || s.cell.Granted? {
      OpFacts(s, s.cell.op);
    }
  }

  /** The step the drop of `h` takes next after a run. */
  ghost predicate IsOwnStep(first: HandleId, steps: seq<Step>, step: Step, h: HandleId) {
    Exec(first, steps).Some? && Dropping(Exec(first, steps).value, h) && step == NextOwn(Exec(first, steps).value, h)
  }

  lemma OwnStepsCons(first: HandleId, steps: seq<Step>, step: Step, rest: seq<Step>, h: HandleId)
    requires IsOwnStep(first, steps, step, h)
    requires forall i | 0 <= i < |rest| :: IsOwnStep(first, steps + [step] + rest[..i], rest[i], h)
    ensures forall i | 0 <= i < |[step] + rest| :: IsOwnStep(first, steps + ([step] + rest)[..i], ([step] + rest)[i], h)
  {
    hide IsOwnStep;
    var more := [step] + rest;
    forall i | 0 <= i < |more|
      ensures IsOwnStep(first, steps + more[..i], more[i], h)
    {
      if i == 0 {
        assert steps + more[..0] == steps;
      } else {
        assert steps + more[..i] == steps + [step] + rest[..i - 1];
      }
    }
  }

  /** From any reachable state a drop under way ends within as many steps of its own as it has left, seven at
      most, or meets another call that has the permit; it never makes a second attempt on the way. */
  lemma {:induction false} DropFinishes(first: HandleId, steps: seq<Step>, h: HandleId) returns (more: seq<Step>)
    requires Exec(first, steps).Some? && Dropping(Exec(first, steps).value, h)
    ensures |more| <= Remaining(Exec(first, steps).value, h) <= 7 && Exec(first, steps + more).Some?
    ensures var s := Exec(first, steps + more).value;
            && Dropping(s, h) && (s.handles[h].pc == Gone || Blocked(s, h))
            && s.handles[h].attempts == Exec(first, steps).value.handles[h].attempts
    ensures forall i | 0 <= i < |more| :: IsOwnStep(first, steps + more[..i], more[i], h)
    decreases Remaining(Exec(first, steps).value, h)
  {
    hide Exec, Next, NextOwn, Remaining, Dropping, Blocked, IsOwnStep;
    var s := Exec(first, steps).value;
    assert steps + [] == steps;
    more := [];
    RemainingBounded(s, h);
    if s.handles[h].pc != Gone && !Blocked(s, h) {
      var step := OwnStepRun(first, steps, h);
      var rest := DropFinishes(first, steps + [step], h);
      assert steps + [step] + rest == steps + ([step] + rest);
      more := [step] + rest;
      OwnStepsCons(first, steps, step, rest, h);
    }
  }

  lemma RemainingBounded(s: State, h: HandleId)
    requires Dropping(s, h)
    ensures h in s.handles && Remaining(s, h) <= 7
  {
  }

  lemma OwnStepRun(first: HandleId, steps: seq<Step>, h: HandleId) returns (step: Step)
    requires Exec(first, steps).Some? && Dropping(Exec(first, steps).value, h)
    requires Exec(first, steps).value.handles[h].pc != Gone && !Blocked(Exec(first, steps).value, h)
    ensures IsOwnStep(first, steps, step, h) && Exec(first, steps + [step]).Some?
    ensures var s, s' := Exec(first, steps).value, Exec(first, steps + [step]).value;
            && Dropping(s', h) && Remaining(s', h) < Remaining(s, h)
            && s'.handles[h].attempts == s.handles[h].attempts
  {
    var s := Exec(first, steps).value;
    step := NextOwn(s, h);
    ReachableInv(first, steps);
    DropTerminates(s, h);
    DropNeverRecurses(s, step, h);
    hide Next, Remaining, NextOwn, Inv;
    assert (steps + [step])[..|steps|] == steps;
  }

  // ----- what the owner of the driver relies on -----

  predicate AllGone(s: State) {
    forall h | h in s.handles :: s.handles[h].pc == Gone
  }

  /** The session was ended or leaked, or every handle of it has had its one fallback attempt. */
  predicate EndAttempted(s: State) {
    s.cell.Set? || forall h | h in s.handles ::
      s.handles[h].attempts == 1 && (s.handles[h].pc == DroppingFields || s.handles[h].pc == Gone)
  }

  lemma FinishedAttempted(s: State)
    requires Inv(s)
    requires forall h | h in s.handles :: s.handles[h].pc == DroppingFields || s.handles[h].pc == Gone
    ensures EndAttempted(s)
  {
    forall h | h in s.handles ensures s.cell.Set? || s.handles[h].attempts == 1 {
      HandleFacts(s, h);
    }
  }

  /** Neither fact is ever taken back. */
  lemma EndIsStable(s: State, step: Step)
    requires Inv(s) && Next(s, step).Some?
    ensures AllGone(s) ==> AllGone(Next(s, step).value)
    ensures EndAttempted(s) ==> EndAttempted(Next(s, step).value)
  {
    if s.cell.Set? {
      SetIsFinal(s, step);
    }
    if forall h | h in s.handles :: s.handles[h].pc == DroppingFields || s.handles[h].pc == Gone {
      StableHandles(s, step);
    }
  }

  lemma StableHandles(s: State, step: Step)
    requires Inv(s) && Next(s, step).Some?
    requires forall h | h in s.handles :: s.handles[h].pc == DroppingFields || s.handles[h].pc == Gone
    ensures forall h | h in Next(s, step).value.handles ::
              h in s.handles && Next(s, step).value.handles[h].attempts == s.handles[h].attempts
              && (s.handles[h].pc == Gone ==> Next(s, step).value.handles[h].pc == Gone)
              && (s.handles[h].pc == DroppingFields ==>
                    Next(s, step).value.handles[h].pc == DroppingFields || Next(s, step).value.handles[h].pc == Gone)
  {
    hide Inv;
  }
}
