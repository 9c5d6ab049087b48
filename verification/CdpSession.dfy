/** `CdpSession::subscribe`: enabling a domain once for all clones of a session.

    Every call runs as a task. The set of enabled methods is behind one lock, which a task keeps across
    the wire call; a call can be cancelled wherever it waits. */
module CdpSession {
  import opened Wrappers

  type Task = nat
  type Method = string

  datatype Pc = Waiting(enable: Method) | InFlight(enable: Method) | Subscribed | Failed | Cancelled

  /** What is observable: enable commands sent, their acknowledgements, and calls that succeeded. */
  datatype Event = Sent(task: Task, enable: Method) | Acked(task: Task, enable: Method) | Succeeded(task: Task, needs: Option<Method>)

  datatype State = State(lock: Option<Task>, enabled: set<Method>, tasks: map<Task, Pc>, log: seq<Event>)

  const INIT := State(None, {}, map[], [])

  datatype Step =
    | Begin(task: Task, enable: Option<Method>)
    | Acquire(task: Task)
    | Reply(task: Task, ok: bool)
    | Cancel(task: Task)

  function Next(s: State, step: Step): Option<State> {
    match step
    case Begin(t, enable) =>
      if t in s.tasks then None
      else if enable.None? then Some(s.(tasks := s.tasks[t := Subscribed], log := s.log + [Succeeded(t, None)]))
      else Some(s.(tasks := s.tasks[t := Waiting(enable.value)]))
    case Acquire(t) =>
      if t !in s.tasks || !s.tasks[t].Waiting? || s.lock.Some? then None
      else
        var m := s.tasks[t].enable;
        if m in s.enabled then Some(s.(tasks := s.tasks[t := Subscribed], log := s.log + [Succeeded(t, Some(m))]))
        else Some(s.(lock := Some(t), tasks := s.tasks[t := InFlight(m)], log := s.log + [Sent(t, m)]))
    case Reply(t, ok) =>
      if t !in s.tasks || !s.tasks[t].InFlight? then None
      else
        var m := s.tasks[t].enable;
        if ok
        then Some(State(None, s.enabled + {m}, s.tasks[t := Subscribed], s.log + [Acked(t, m), Succeeded(t, Some(m))]))
        else Some(s.(lock := None, tasks := s.tasks[t := Failed]))
    case Cancel(t) =>
      if t !in s.tasks || (!s.tasks[t].Waiting? && !s.tasks[t].InFlight?) then None
      else Some(s.(lock := if s.tasks[t].InFlight? then None else s.lock, tasks := s.tasks[t := Cancelled]))
  }

  function Exec(steps: seq<Step>): Option<State> {
    if steps == [] then Some(INIT)
    else match Exec(steps[..|steps| - 1])
      case None => None
      case Some(s) => Next(s, steps[|steps| - 1])
  }

  function AckedIn(log: seq<Event>): set<Method> {
    set e | e in log && e.Acked? :: e.enable
  }

  /** Nothing is sent or acknowledged again after its acknowledgement, and nobody succeeds before it. */
  ghost predicate LogOk(log: seq<Event>) {
    log == [] ||
    var before, e := log[..|log| - 1], log[|log| - 1];
    LogOk(before)
    && match e
       case Sent(_, m) => m !in AckedIn(before)
       case Acked(_, m) => m !in AckedIn(before)
       case Succeeded(_, needs) => needs.None? || needs.value in AckedIn(before)
  }

  /** The lock belongs to the one task whose command is on the wire, for a method not enabled yet. */
  ghost predicate LockOk(s: State) {
    && (forall t | t in s.tasks && s.tasks[t].InFlight? :: s.lock == Some(t) && s.tasks[t].enable !in s.enabled)
    && (s.lock.Some? ==> s.lock.value in s.tasks && s.tasks[s.lock.value].InFlight?)
  }

  ghost predicate Inv(s: State) {
    LockOk(s) && s.enabled == AckedIn(s.log) && LogOk(s.log)
  }

  lemma LogSnoc(log: seq<Event>, e: Event)
    requires LogOk(log)
    requires e.Sent? || e.Acked? ==> e.enable !in AckedIn(log)
    requires e.Succeeded? && e.needs.Some? ==> e.needs.value in AckedIn(log)
    ensures LogOk(log + [e])
    ensures AckedIn(log + [e]) == AckedIn(log) + if e.Acked? then {e.enable} else {}
  {
    assert (log + [e])[..|log|] == log;
    assert forall f :: f in log + [e] <==> f in log || f == e;
  }

  lemma StepKeepsInv(s: State, step: Step)
    requires Inv(s) && Next(s, step).Some?
    ensures Inv(Next(s, step).value)
  {
    hide LogOk, AckedIn, LockOk;
    LockKept(s, step);
    match step
    case Begin(t, enable) =>
      if enable.None? {
        LogSnoc(s.log, Succeeded(t, None));
      }
    case Acquire(t) =>
      var m := s.tasks[t].enable;
      LogSnoc(s.log, if m in s.enabled then Succeeded(t, Some(m)) else Sent(t, m));
    case Reply(t, ok) =>
      var m := s.tasks[t].enable;
      HolderFacts(s, t);
      if ok {
        LogSnoc(s.log, Acked(t, m));
        LogSnoc(s.log + [Acked(t, m)], Succeeded(t, Some(m)));
        assert s.log + [Acked(t, m)] + [Succeeded(t, Some(m))] == s.log + [Acked(t, m), Succeeded(t, Some(m))];
      }
    case Cancel(t) =>
  }

  lemma HolderFacts(s: State, t: Task)
    requires LockOk(s) && t in s.tasks && s.tasks[t].InFlight?
    ensures s.tasks[t].enable !in s.enabled && s.lock == Some(t)
  {
  }

  lemma LockKept(s: State, step: Step)
    requires LockOk(s) && Next(s, step).Some?
    ensures LockOk(Next(s, step).value)
  {
  }

  lemma {:induction false} ReachableInv(steps: seq<Step>)
    requires Exec(steps).Some?
    ensures Inv(Exec(steps).value)
  {
    hide Inv, Next;
    if steps == [] {
      InitInv();
    } else {
      ReachableInv(steps[..|steps| - 1]);
      StepKeepsInv(Exec(steps[..|steps| - 1]).value, steps[|steps| - 1]);
    }
  }

  lemma InitInv()
    ensures Inv(INIT)
  {
  }

  lemma {:induction false} LogMeans(log: seq<Event>, i: nat, j: nat)
    requires LogOk(log) && i < j < |log|
    ensures log[i].Acked? ==> log[j].Succeeded? || log[j].enable != log[i].enable
    decreases |log|
  {
    var front := log[..|log| - 1];
    if j == |log| - 1 {
      assert log[i] in front;
    } else {
      LogMeans(front, i, j);
    }
  }

  /** In every run: after a method's acknowledgement it is neither sent nor acknowledged again. */
  lemma EnabledOnce(steps: seq<Step>, i: nat, j: nat)
    requires Exec(steps).Some? && i < j < |Exec(steps).value.log|
    ensures var log := Exec(steps).value.log; log[i].Acked? ==> log[j].Succeeded? || log[j].enable != log[i].enable
  {
    ReachableInv(steps);
    LogMeans(Exec(steps).value.log, i, j);
  }

  lemma {:induction false} SuccessMeans(log: seq<Event>, j: nat) returns (i: nat)
    requires LogOk(log) && j < |log| && log[j].Succeeded? && log[j].needs.Some?
    ensures i < j && log[i].Acked? && log[i].enable == log[j].needs.value
    decreases |log|
  {
    var front := log[..|log| - 1];
    if j == |log| - 1 {
      var e :| e in front && e.Acked? && e.enable == log[j].needs.value;
      i :| i < |front| && front[i] == e;
    } else {
      i := SuccessMeans(front, j);
    }
  }

  /** In every run: a subscription that needs a method succeeds only after that method's acknowledgement. */
  lemma NoSuccessBeforeAck(steps: seq<Step>, j: nat) returns (i: nat)
    requires Exec(steps).Some? && j < |Exec(steps).value.log|
    requires var e := Exec(steps).value.log[j]; e.Succeeded? && e.needs.Some?
    ensures var log := Exec(steps).value.log; i < j && log[i].Acked? && log[i].enable == log[j].needs.value
  {
    ReachableInv(steps);
    i := SuccessMeans(Exec(steps).value.log, j);
  }

  /** In every run: a waiting subscriber that gets the lock sends the enable command exactly when no
      acknowledgement was received, so a failed or cancelled enable is tried again; else it succeeds at once. */
  lemma UnackedIsRetried(steps: seq<Step>, t: Task)
    requires Exec(steps).Some?
    requires var s := Exec(steps).value; t in s.tasks && s.tasks[t].Waiting? && s.lock.None?
    ensures var s := Exec(steps).value;
            var m := s.tasks[t].enable;
            var r := Next(s, Acquire(t));
            && r.Some?
            && (m !in AckedIn(s.log) ==> r.value.log == s.log + [Sent(t, m)] && r.value.tasks[t] == InFlight(m))
            && (m in AckedIn(s.log) ==> r.value.log == s.log + [Succeeded(t, Some(m))] && r.value.tasks[t] == Subscribed)
  {
    hide LogOk, AckedIn, LockOk;
    ReachableInv(steps);
  }

  /** In every run at most one enable command is on the wire. */
  lemma OneInFlight(steps: seq<Step>, t: Task, u: Task)
    requires Exec(steps).Some?
    requires var s := Exec(steps).value; t in s.tasks && u in s.tasks && s.tasks[t].InFlight? && s.tasks[u].InFlight?
    ensures t == u
  {
    hide LogOk, AckedIn;
    ReachableInv(steps);
    HolderFacts(Exec(steps).value, t);
    HolderFacts(Exec(steps).value, u);
  }

  // ----- the call itself -----

  /** Nobody else does anything between a call's atomic actions. */
  ghost predicate Quiet(others: nat -> seq<Step>) {
    forall i: nat :: others(i) == []
  }

  /** A call that nobody disturbs, as one transaction. */
  function Undisturbed(s: State, t: Task, enable: Option<Method>, reply: Option<bool>): State {
    if enable.None? then s.(tasks := s.tasks[t := Subscribed], log := s.log + [Succeeded(t, None)])
    else if s.lock.Some? then s.(tasks := s.tasks[t := Waiting(enable.value)])
    else Locked(s, t, enable.value, reply)
  }

  /** On the free lock: an enabled method needs no command, any other one is sent and the reply decides. */
  function Locked(s: State, t: Task, m: Method, reply: Option<bool>): State {
    if m in s.enabled then s.(tasks := s.tasks[t := Subscribed], log := s.log + [Succeeded(t, Some(m))])
    else match reply
      case None => s.(tasks := s.tasks[t := Cancelled], log := s.log + [Sent(t, m)])
      case Some(ok) =>
        if ok then s.(tasks := s.tasks[t := Subscribed], enabled := s.enabled + {m},
                      log := s.log + [Sent(t, m), Acked(t, m), Succeeded(t, Some(m))])
        else s.(tasks := s.tasks[t := Failed], log := s.log + [Sent(t, m)])
  }

  /** The state all clones of a session share, updated in place. */
  class SharedSession {
    var lock: Option<Task>
    var enabled: set<Method>
    var tasks: map<Task, Pc>
    var log: seq<Event>
    ghost var steps: seq<Step>

    constructor ()
      ensures Valid() && enabled == {} && log == []
    {
      lock, enabled, tasks, log, steps := None, {}, map[], [], [];
    }

    function Now(): State
      reads this
    {
      State(lock, enabled, tasks, log)
    }

    /** The fields are the state after a run of the step machine. */
    ghost predicate Valid()
      reads this
    {
      Exec(steps) == Some(Now())
    }

    ghost method Record(step: Step, before: State)
      requires Exec(steps) == Some(before) && Next(before, step) == Some(Now())
      modifies this`steps
      ensures Valid() && steps == old(steps) + [step]
    {
      assert (steps + [step])[..|steps|] == steps;
      steps := steps + [step];
    }

    /** Other subscribers get to run: those of the given steps that are enabled and not of task `t`. */
    method Interfere(t: Task, others: seq<Step>)
      requires Valid()
      modifies this
      ensures Valid() && old(steps) <= steps
      ensures t in tasks <==> t in old(tasks)
      ensures t in tasks ==> tasks[t] == old(tasks)[t]
      ensures t in tasks && tasks[t].InFlight? ==> lock == Some(t) && enabled == old(enabled)
      ensures others == [] ==> Now() == old(Now())
    {
      ReachableInv(steps);
      for i := 0 to |others|
        invariant Valid() && old(steps) <= steps
        invariant t in tasks <==> t in old(tasks)
        invariant t in tasks ==> tasks[t] == old(tasks)[t]
        invariant t in tasks && tasks[t].InFlight? ==> lock == Some(t) && enabled == old(enabled)
        invariant others == [] ==> Now() == old(Now())
      {
        ghost var before := Now();
        var after := Next(Now(), others[i]);
        if others[i].task != t && after.Some? {
          ReachableInv(steps);
          OthersLeave(before, others[i], t);
          lock, enabled, tasks, log := after.value.lock, after.value.enabled, after.value.tasks, after.value.log;
          Record(others[i], before);
        }
      }
    }

    /** The lock was free: check the set, and send the command unless it is there. */
    method Check(t: Task, m: Method)
      requires Valid() && t in tasks && tasks[t] == Waiting(m) && lock == None
      modifies this
      ensures Valid() && old(steps) <= steps && t in tasks
      ensures enabled == old(enabled) && tasks == old(tasks)[t := tasks[t]]
      ensures m in enabled ==> tasks[t] == Subscribed && lock == None && log == old(log) + [Succeeded(t, Some(m))]
      ensures m !in enabled ==> tasks[t] == InFlight(m) && lock == Some(t) && log == old(log) + [Sent(t, m)]
    {
      ghost var before := Now();
      if m in enabled {
        tasks, log := tasks[t := Subscribed], log + [Succeeded(t, Some(m))];
      } else {
        lock, tasks, log := Some(t), tasks[t := InFlight(m)], log + [Sent(t, m)];
      }
      Record(Acquire(t), before);
    }

    /** The reply arrives, or the call is cancelled while it waits; either way the lock is given back. */
    method Conclude(t: Task, m: Method, reply: Option<bool>)
      requires Valid() && t in tasks && tasks[t] == InFlight(m) && lock == Some(t)
      modifies this
      ensures Valid() && old(steps) <= steps && t in tasks && lock == None
      ensures tasks == old(tasks)[t := if reply.None? then Cancelled else if reply.value then Subscribed else Failed]
      ensures log == old(log) + if reply == Some(true) then [Acked(t, m), Succeeded(t, Some(m))] else []
      ensures enabled == if reply.Some? && reply.value then old(enabled) + {m} else old(enabled)
    {
      ghost var before := Now();
      lock := None;
      if reply.None? {
        tasks := tasks[t := Cancelled];
        Record(Cancel(t), before);
      } else if !reply.value {
        tasks := tasks[t := Failed];
        Record(Reply(t, false), before);
      } else {
        tasks, enabled := tasks[t := Subscribed], enabled + {m};
        log := log + [Acked(t, m), Succeeded(t, Some(m))];
        Record(Reply(t, true), before);
      }
    }

    /** `subscribe`. The lock is kept across the wire call; no reply means the call is cancelled there.
        A call that is still waiting for the lock says so. */
    method Subscribe(t: Task, enable: Option<Method>, others: nat -> seq<Step>, reply: Option<bool>) returns (pc: Pc)
      requires Valid() && t !in tasks
      modifies this
      ensures Valid() && old(steps) <= steps && t in tasks && tasks[t] == pc
      ensures pc.Waiting? ==> lock.Some?
      ensures pc.Subscribed? && enable.Some? ==> enable.value in enabled && enable.value in AckedIn(log)
      ensures pc.Failed? || pc.Cancelled? ==> enable.Some? && enable.value !in enabled && lock == None
      ensures !pc.InFlight? && (pc.Failed? ==> reply.Some? && !reply.value) && (pc.Cancelled? ==> reply.None?)
      ensures Quiet(others) ==> Now() == Undisturbed(old(Now()), t, enable, reply)
    {
      hide LogOk, AckedIn, LockOk, Inv, Next, Exec;
      Start(t, enable);
      if enable.None? {
        return Subscribed;
      }
      var m := enable.value;
      Interfere(t, others(0));
      if lock.Some? {
        return Waiting(m);
      }
      EnableOnce(t, m, others(1), reply);
      pc := tasks[t];
      EnabledIsAcked(steps);
    }

    /** What `subscribe` does under the lock. */
    method EnableOnce(t: Task, m: Method, others: seq<Step>, reply: Option<bool>)
      requires Valid() && t in tasks && tasks[t] == Waiting(m) && lock == None
      modifies this
      ensures Valid() && old(steps) <= steps && t in tasks && lock == None
      ensures enabled == old(enabled) + if tasks[t] == Subscribed then {m} else {}
      ensures tasks[t] == if m in old(enabled) then Subscribed
                          else if reply.None? then Cancelled else if reply.value then Subscribed else Failed
      ensures others == [] ==> Now() == Locked(old(Now()), t, m, reply)
    {
      hide Inv, Next, Exec;
      Check(t, m);
      if tasks[t].InFlight? {
        InFlightFacts(steps, t);
        Interfere(t, others);
        Conclude(t, m, reply);
      }
    }

    method Start(t: Task, enable: Option<Method>)
      requires Valid() && t !in tasks
      modifies this
      ensures Valid() && old(steps) <= steps && t in tasks
      ensures Now() == if enable.None? then Undisturbed(old(Now()), t, enable, None)
                       else old(Now()).(tasks := old(tasks)[t := Waiting(enable.value)])
    {
      ghost var before := Now();
      if enable.None? {
        tasks, log := tasks[t := Subscribed], log + [Succeeded(t, None)];
      } else {
        tasks := tasks[t := Waiting(enable.value)];
      }
      Record(Begin(t, enable), before);
    }
  }

  lemma EnabledIsAcked(steps: seq<Step>)
    requires Exec(steps).Some?
    ensures Exec(steps).value.enabled == AckedIn(Exec(steps).value.log)
  {
    ReachableInv(steps);
    hide AckedIn, LogOk, LockOk, Exec;
  }

  lemma InFlightFacts(steps: seq<Step>, t: Task)
    requires Exec(steps).Some?
    requires t in Exec(steps).value.tasks && Exec(steps).value.tasks[t].InFlight?
    ensures var s := Exec(steps).value; s.tasks[t].enable !in s.enabled && s.lock == Some(t)
  {
    ReachableInv(steps);
    hide AckedIn, LogOk, Exec;
  }

  lemma OthersLeave(s: State, step: Step, t: Task)
    requires Inv(s) && step.task != t && Next(s, step).Some?
    ensures var s' := Next(s, step).value;
            && (t in s'.tasks <==> t in s.tasks) && (t in s.tasks ==> s'.tasks[t] == s.tasks[t])
            && (t in s.tasks && s.tasks[t].InFlight? ==> s.lock == Some(t) && s'.lock == s.lock && s'.enabled == s.enabled)
  {
  }
}
