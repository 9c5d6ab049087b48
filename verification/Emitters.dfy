/** `Emitter` (and `LogSubscribers`, which is the same code) with its fields updated in place.

    Other threads act between any two atomic actions of a call: what they do is a parameter, of which
    the enabled steps of other operations happen. Every atomic action is proved to be one step of
    `Subscribers`, so what holds in every run of the step machine holds of the code. */
module Emitters {
  import opened Wrappers
  import opened Subscribers

  function OpOf(step: Step): OpId {
    step.op
  }

  /** Nobody else does anything between a call's atomic actions. */
  ghost predicate Quiet(others: nat -> seq<Step>) {
    forall i: nat :: others(i) == []
  }

  /** A change that nobody races with, as one transaction. */
  function Changed(s: State, o: OpId, change: Change): State {
    State(Apply(s.list, change), s.version + 1, s.nextId, if change.Added? then s.held + {change.entry.id} else s.held,
          s.ops[o := Update(change, Done)], s.log + [change])
  }

  class Emitter {
    var subs: seq<Entry>
    var version: nat                // changes with every swap, as the list's address does
    var nextId: nat
    var held: set<nat>              // ids of the subscriptions handed out and not dropped yet
    var ops: map<OpId, Op>          // the calls in progress and those over
    var log: seq<Change>
    ghost var steps: seq<Step>

    constructor ()
      ensures Valid() && subs == [] && steps == []
    {
      subs, version, nextId, held, ops, log, steps := [], 0, 0, {}, map[], [], [];
    }

    function Now(): State
      reads this
    {
      State(subs, version, nextId, held, ops, log)
    }

    /** The fields are the state after a run of the step machine. */
    ghost predicate Valid()
      reads this
    {
      Exec(steps) == Some(Now())
    }

    /** The last change is the given one, and the list is what it makes of the list it replaced. */
    ghost predicate Applied(change: Change)
      reads this
    {
      log != [] && log[|log| - 1] == change && subs == Apply(Replay(log[..|log| - 1]), change)
    }

    twostate predicate Stepped(step: Step)
      reads this
    {
      Valid() && steps == old(steps) + [step] && Next(old(Now()), step) == Some(Now())
    }

    ghost method Record(step: Step, before: State)
      requires Exec(steps) == Some(before) && Next(before, step) == Some(Now())
      modifies this`steps
      ensures Valid() && steps == old(steps) + [step]
    {
      assert (steps + [step])[..|steps|] == steps;
      steps := steps + [step];
    }

    /** Other threads get to run: those of the given steps that are enabled and not of operation `o`. */
    method Interfere(o: OpId, others: seq<Step>)
      requires Valid()
      modifies this
      ensures Valid() && old(steps) <= steps
      ensures o in ops <==> o in old(ops)
      ensures o in ops ==> ops[o] == old(ops)[o]
      ensures version >= old(version) && (others == [] ==> Now() == old(Now()))
    {
      for i := 0 to |others|
        invariant Valid() && old(steps) <= steps
        invariant o in ops <==> o in old(ops)
        invariant o in ops ==> ops[o] == old(ops)[o]
        invariant version >= old(version) && (others == [] ==> Now() == old(Now()))
      {
        ghost var before := Now();
        var after := Next(Now(), others[i]);
        if OpOf(others[i]) != o && after.Some? {
          OthersLeave(before, others[i], o);
          subs, version, nextId := after.value.list, after.value.version, after.value.nextId;
          held, ops, log := after.value.held, after.value.ops, after.value.log;
          Record(others[i], before);
        }
      }
    }

    /** One attempt of `rcu`: swap in the new list if nobody swapped since the load, else load again. */
    method TrySwap(o: OpId, current: seq<Entry>, loaded: nat, change: Change) returns (done: bool)
      requires Valid() && o in ops && ops[o] == Update(change, Loaded(current, loaded))
      modifies this
      ensures Stepped(Swap(o)) && done == (loaded == old(version)) && o in ops
      ensures done ==> Applied(change) && log == old(log) + [change] && ops[o] == Update(change, Done)
      ensures !done ==> subs == old(subs) && ops[o] == Update(change, Loaded(subs, version)) && loaded < version == old(version)
      ensures done ==> Now() == Changed(old(Now()), o, change)
      ensures done && change.Added? ==> change.entry.id in held && change.entry in subs
    {
      ghost var before := Now();
      LoadedIsCurrent(steps, o);
      if loaded == version {
        subs, version := Apply(current, change), version + 1;
        held := if change.Added? then held + {change.entry.id} else held;
        ops, log := ops[o := Update(change, Done)], log + [change];
        done := true;
        assert log[..|log| - 1] == before.log;
      } else {
        ops := ops[o := Update(change, Loaded(subs, version))];
        done := false;
      }
      hide Exec, Apply, Replay;
      Record(Swap(o), before);
    }

    method LoadList(o: OpId, change: Change) returns (current: seq<Entry>, loaded: nat)
      requires Valid() && o in ops && ops[o] == Update(change, Start)
      modifies this
      ensures Stepped(Load(o)) && current == subs && loaded == version
      ensures o in ops && ops[o] == Update(change, Loaded(current, loaded))
      ensures Now() == old(Now()).(ops := old(ops)[o := ops[o]])
    {
      ghost var before := Now();
      current, loaded := subs, version;
      ops := ops[o := Update(change, Loaded(current, loaded))];
      Record(Load(o), before);
    }

    /** The `rcu` loop: it ends when a swap succeeds. After `patience` failures it is still retrying, and others have made
        at least as many changes since. */
    method Rcu(o: OpId, change: Change, others: nat -> seq<Step>, patience: nat) returns (done: bool)
      requires Valid() && o in ops && ops[o] == Update(change, Start)
      modifies this
      ensures Valid() && old(steps) <= steps
      ensures o in ops && ops[o].Update? && ops[o].change == change && (done <==> ops[o].pc == Done)
      ensures done ==> Applied(change)
      ensures done && change.Added? ==> change.entry.id in held && change.entry in subs
      ensures !done ==> |log| >= |old(log)| + patience
      ensures Quiet(others) && patience > 0 ==> done && Now() == Changed(old(Now()), o, change)
    {
      hide Exec, Next, Apply, Replay;
      VersionCounts(steps);
      Interfere(o, others(0));
      var current, loaded := LoadList(o, change);
      for i := 0 to patience
        invariant Valid() && old(steps) <= steps
        invariant old(version) + i <= loaded <= version
        invariant o in ops && ops[o] == Update(change, Loaded(current, loaded))
        invariant Quiet(others) ==> i == 0 && loaded == version
                                    && Now() == old(Now()).(ops := old(ops)[o := Update(change, Loaded(subs, version))])
      {
        Interfere(o, others(i + 1));
        done := TrySwap(o, current, loaded, change);
        if done {
          return;
        }
        current, loaded := subs, version;
      }
      done := false;
      VersionCounts(steps);
    }

    /** `add_arc`: mint an id, then append the subscriber. The subscription is returned when it is listed. */
    method AddArc(o: OpId, cb: Callback, others: nat -> seq<Step>, patience: nat) returns (id: nat, done: bool)
      requires Valid() && o !in ops
      modifies this
      ensures Valid() && old(steps) <= steps && id == old(nextId)
      ensures done ==> id in held && Added(Entry(id, cb)) in log && Entry(id, cb) in subs
      ensures done ==> Distinct(subs) && subs == LiveAdds(log, RemovedIds(log))
      ensures !done ==> |log| >= |old(log)| + patience
      ensures Quiet(others) && patience > 0 ==>
                done && Now() == Changed(old(Now()).(nextId := id + 1), o, Added(Entry(id, cb)))
    {
      hide Exec, Next, LiveAdds, Replay, Apply, RemovedIds;
      id := Mint(o, cb);
      done := Rcu(o, Added(Entry(id, cb)), others, patience);
      ListIsLiveAdds(steps);
    }

    method Mint(o: OpId, cb: Callback) returns (id: nat)
      requires Valid() && o !in ops
      modifies this
      ensures Valid() && old(steps) <= steps && id == old(nextId)
      ensures Now() == old(Now()).(nextId := id + 1, ops := old(ops)[o := Update(Added(Entry(id, cb)), Start)])
    {
      ghost var before := Now();
      id, nextId := nextId, nextId + 1;
      ops := ops[o := Update(Added(Entry(id, cb)), Start)];
      Record(BeginAdd(o, cb), before);
    }

    /** Dropping a `Subscription`: filter its id out of the list, in a loop of its own. */
    method DropSubscription(o: OpId, id: nat, others: nat -> seq<Step>, patience: nat) returns (done: bool)
      requires Valid() && o !in ops && id in held
      modifies this
      ensures Valid() && old(steps) <= steps
      ensures done ==> Removed(id) in log && id !in Ids(subs)
      ensures done ==> Distinct(subs) && subs == LiveAdds(log, RemovedIds(log))
      ensures !done ==> |log| >= |old(log)| + patience
      ensures Quiet(others) && patience > 0 ==>
                done && Now() == Changed(old(Now()).(held := old(held) - {id}), o, Removed(id))
    {
      hide Exec, Next, LiveAdds, Replay, Apply, Ids;
      StartDrop(o, id);
      done := Rcu(o, Removed(id), others, patience);
      ListIsLiveAdds(steps);
      if done {
        RemovedIsGone(steps, id);
      }
    }

    method StartDrop(o: OpId, id: nat)
      requires Valid() && o !in ops && id in held
      modifies this
      ensures Valid() && old(steps) <= steps
      ensures Now() == old(Now()).(held := old(held) - {id}, ops := old(ops)[o := Update(Removed(id), Start)])
    {
      ghost var before := Now();
      held := held - {id};
      ops := ops[o := Update(Removed(id), Start)];
      Record(BeginDrop(o, id), before);
    }

    /** `emit`: load the list once and call its subscribers one after the other. */
    method Emit(o: OpId, others: nat -> seq<Step>) returns (called: seq<Callback>)
      requires Valid() && o !in ops
      modifies this
      ensures Valid() && old(steps) <= steps
      ensures called == Callbacks(old(subs)) == Callbacks(LiveAdds(old(log), RemovedIds(old(log))))
      ensures Quiet(others) ==> Now() == old(Now()).(ops := old(ops)[o := Op.Emit(old(subs), |old(log)|, called)])
    {
      ListIsLiveAdds(steps);
      ghost var before := Now();
      var list := subs;
      ops := ops[o := Op.Emit(list, |log|, [])];
      Record(BeginEmit(o), before);
      called := [];
      hide Exec, Next, LiveAdds, RemovedIds;
      for i := 0 to |list|
        invariant Valid() && old(steps) <= steps && |called| == i && called == Callbacks(list)[..i]
        invariant o in ops && ops[o] == Op.Emit(list, |old(log)|, called)
        invariant Quiet(others) ==> Now() == old(Now()).(ops := old(ops)[o := ops[o]])
      {
        Interfere(o, others(i));
        Call(o, list[i].cb);
        called := called + [list[i].cb];
      }
    }

    /** The next subscriber of the loaded list is called. */
    method Call(o: OpId, cb: Callback)
      requires Valid() && o in ops && ops[o].Emit? && |ops[o].called| < |ops[o].snapshot|
      requires ops[o].snapshot[|ops[o].called|].cb == cb
      modifies this
      ensures Stepped(CallNext(o)) && Now() == old(Now()).(ops := ops)
      ensures ops == old(ops)[o := old(ops)[o].(called := old(ops)[o].called + [cb])]
    {
      ghost var before := Now();
      ops := ops[o := ops[o].(called := ops[o].called + [cb])];
      Record(CallNext(o), before);
    }
  }

  lemma OthersLeave(s: State, step: Step, o: OpId)
    requires OpOf(step) != o && Next(s, step).Some?
    ensures var s' := Next(s, step).value;
            (o in s'.ops <==> o in s.ops) && (o in s.ops ==> s'.ops[o] == s.ops[o]) && s'.version >= s.version
  {
  }

  /** The list is the replay of the log, and a call that loaded the current version has the current list. */
  lemma LoadedIsCurrent(steps: seq<Step>, o: OpId)
    requires Exec(steps).Some? && o in Exec(steps).value.ops
    requires var op := Exec(steps).value.ops[o]; op.Update? && op.pc.Loaded?
    ensures var s := Exec(steps).value;
            && s.list == Replay(s.log) && s.ops[o].pc.version <= s.version
            && (s.ops[o].pc.version == s.version ==> s.ops[o].pc.snapshot == s.list)
  {
    ReachableInv(steps);
    hide Exec, LogOk, AddedIds, RemovedIds, Replay;
    assert OpOk(Exec(steps).value, Exec(steps).value.ops[o]);
  }

  lemma VersionCounts(steps: seq<Step>)
    requires Exec(steps).Some?
    ensures Exec(steps).value.version == |Exec(steps).value.log|
  {
    ReachableInv(steps);
    hide Exec, LogOk, Replay;
  }

  lemma RemovedIsGone(steps: seq<Step>, id: nat)
    requires Exec(steps).Some? && Removed(id) in Exec(steps).value.log
    ensures id !in Ids(Exec(steps).value.list)
  {
    hide Exec, Ids;
    assert steps + [] == steps;
    assert Removed(id) in Exec(steps).value.log && Removed(id).id in RemovedIds(Exec(steps).value.log);
    NeverResurrected(steps, [], id);
  }
}
