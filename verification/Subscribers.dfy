/** Copy-on-write subscriber lists (`Emitter` and `LogSubscribers`).

    Adding and dropping a subscription load the current list, compute a new one and swap it in if the
    list is still the one that was loaded, else they start over from the list they found. Pointer
    identity is modelled by the version of the list; every successful swap is logged. */
module Subscribers {
  import opened Wrappers

  type OpId = nat
  type Callback = nat

  datatype Entry = Entry(id: nat, cb: Callback)
  datatype Change = Added(entry: Entry) | Removed(id: nat)
  datatype Pc = Start | Loaded(snapshot: seq<Entry>, version: nat) | Done

  /** An emit calls the entries of one loaded list, one after the other. */
  datatype Op = Update(change: Change, pc: Pc) | Emit(snapshot: seq<Entry>, at: nat, called: seq<Callback>)

  datatype State = State(list: seq<Entry>, version: nat, nextId: nat, held: set<nat>, ops: map<OpId, Op>, log: seq<Change>)

  const INIT := State([], 0, 0, {}, map[], [])

  datatype Step =
    | BeginAdd(op: OpId, cb: Callback)
    | BeginDrop(op: OpId, id: nat)
    | Load(op: OpId)
    | Swap(op: OpId)
    | BeginEmit(op: OpId)
    | CallNext(op: OpId)

  function Without(list: seq<Entry>, id: nat): seq<Entry> {
    if list == [] then []
    else (if list[0].id == id then [] else [list[0]]) + Without(list[1..], id)
  }

  function Apply(list: seq<Entry>, change: Change): seq<Entry> {
    match change
    case Added(e) => list + [e]
    case Removed(id) => Without(list, id)
  }

  function SwapStep(s: State, o: OpId): Option<State> {
    if o !in s.ops || !s.ops[o].Update? || !s.ops[o].pc.Loaded? then None
    else
      var Update(change, Loaded(snapshot, version)) := s.ops[o];
      if version != s.version
      then Some(s.(ops := s.ops[o := Update(change, Loaded(s.list, s.version))]))
      else Some(State(Apply(snapshot, change), s.version + 1, s.nextId,
                      if change.Added? then s.held + {change.entry.id} else s.held,
                      s.ops[o := Update(change, Done)], s.log + [change]))
  }

  function Next(s: State, step: Step): Option<State> {
    match step
    case BeginAdd(o, cb) =>
      if o in s.ops then None
      else Some(s.(ops := s.ops[o := Update(Added(Entry(s.nextId, cb)), Start)], nextId := s.nextId + 1))
    case BeginDrop(o, id) =>
      if o in s.ops || id !in s.held then None
      else Some(s.(ops := s.ops[o := Update(Removed(id), Start)], held := s.held - {id}))
    case Load(o) =>
      if o !in s.ops || !s.ops[o].Update? || s.ops[o].pc != Start then None
      else Some(s.(ops := s.ops[o := Update(s.ops[o].change, Loaded(s.list, s.version))]))
    case Swap(o) => SwapStep(s, o)
    case BeginEmit(o) =>
      if o in s.ops then None else Some(s.(ops := s.ops[o := Emit(s.list, |s.log|, [])]))
    case CallNext(o) =>
      if o !in s.ops || !s.ops[o].Emit? || |s.ops[o].called| >= |s.ops[o].snapshot| then None
      else
        var op := s.ops[o];
        Some(s.(ops := s.ops[o := op.(called := op.called + [op.snapshot[|op.called|].cb])]))
  }

  function Exec(steps: seq<Step>): Option<State> {
    if steps == [] then Some(INIT)
    else match Exec(steps[..|steps| - 1])
      case None => None
      case Some(s) => Next(s, steps[|steps| - 1])
  }

  // ----- what a log of swaps means -----

  function Replay(log: seq<Change>): seq<Entry> {
    if log == [] then [] else Apply(Replay(log[..|log| - 1]), log[|log| - 1])
  }

  function AddedIds(log: seq<Change>): set<nat> {
    set c | c in log && c.Added? :: c.entry.id
  }

  function RemovedIds(log: seq<Change>): set<nat> {
    set c | c in log && c.Removed? :: c.id
  }

  /** The adds in swap order whose removal is not in `gone`. */
  function LiveAdds(log: seq<Change>, gone: set<nat>): seq<Entry> {
    if log == [] then []
    else
      var c := log[|log| - 1];
      LiveAdds(log[..|log| - 1], gone) + (if c.Added? && c.entry.id !in gone then [c.entry] else [])
  }

  function Ids(list: seq<Entry>): set<nat> {
    set e | e in list :: e.id
  }

  ghost predicate Distinct(list: seq<Entry>) {
    forall i, j | 0 <= i < j < |list| :: list[i].id != list[j].id
  }

  function Callbacks(list: seq<Entry>): seq<Callback> {
    seq(|list|, i requires 0 <= i < |list| => list[i].cb)
  }

  /** Each id is added at most once and removed only after that. */
  ghost predicate LogOk(log: seq<Change>) {
    log == [] ||
    var before, c := log[..|log| - 1], log[|log| - 1];
    LogOk(before)
    && (c.Added? ==> c.entry.id !in AddedIds(before))
    && (c.Removed? ==> c.id in AddedIds(before) && c.id !in RemovedIds(before))
  }

  lemma IdsSnoc(log: seq<Change>, c: Change)
    ensures AddedIds(log + [c]) == AddedIds(log) + (if c.Added? then {c.entry.id} else {})
    ensures RemovedIds(log + [c]) == RemovedIds(log) + (if c.Removed? then {c.id} else {})
  {
  }

  lemma {:induction false} LiveAddsWithout(log: seq<Change>, gone: set<nat>, id: nat)
    ensures LiveAdds(log, gone + {id}) == Without(LiveAdds(log, gone), id)
  {
    if log != [] {
      var c := log[|log| - 1];
      LiveAddsWithout(log[..|log| - 1], gone, id);
      WithoutAppend(LiveAdds(log[..|log| - 1], gone), if c.Added? && c.entry.id !in gone then [c.entry] else [], id);
    }
  }

  lemma {:induction false} WithoutAppend(a: seq<Entry>, b: seq<Entry>, id: nat)
    ensures Without(a + b, id) == Without(a, id) + Without(b, id)
  {
    if a == [] {
      assert a + b == b;
    } else {
      assert (a + b)[1..] == a[1..] + b;
      WithoutAppend(a[1..], b, id);
    }
  }

  lemma {:induction false} LiveAddsUnseen(log: seq<Change>, gone: set<nat>, id: nat)
    requires id !in AddedIds(log)
    ensures LiveAdds(log, gone + {id}) == LiveAdds(log, gone)
  {
    if log != [] {
      var before, c := log[..|log| - 1], log[|log| - 1];
      assert log == before + [c];
      IdsSnoc(before, c);
      LiveAddsUnseen(before, gone, id);
    }
  }

  /** Replaying the swaps leaves exactly the adds that were not removed, in swap order, with distinct ids. */
  lemma {:induction false} ReplayIsLiveAdds(log: seq<Change>)
    requires LogOk(log)
    ensures Replay(log) == LiveAdds(log, RemovedIds(log))
    ensures RemovedIds(log) <= AddedIds(log)
    ensures Ids(Replay(log)) == AddedIds(log) - RemovedIds(log)
    ensures Distinct(Replay(log))
  {
    if log != [] {
      var before, c := log[..|log| - 1], log[|log| - 1];
      assert log == before + [c];
      IdsSnoc(before, c);
      ReplayIsLiveAdds(before);
      match c
      case Added(e) =>
        assert RemovedIds(log) == RemovedIds(before);
        ListIds(Replay(before), e);
      case Removed(id) =>
        LiveAddsWithout(before, RemovedIds(before), id);
        WithoutMeaning(Replay(before), id);
    }
  }

  lemma ListIds(list: seq<Entry>, e: Entry)
    ensures Ids(list + [e]) == Ids(list) + {e.id} == Ids([e] + list)
    ensures Distinct(list) && e.id !in Ids(list) ==> Distinct(list + [e]) && Distinct([e] + list)
  {
    assert forall i | 0 <= i < |list| :: list[i].id in Ids(list);
    assert (list + [e])[|list|] == e && ([e] + list)[0] == e;
    assert forall x | x in list :: x in list + [e] && x in [e] + list;
  }

  lemma {:induction false} WithoutAbsent(list: seq<Entry>, id: nat)
    requires id !in Ids(list)
    ensures Without(list, id) == list
  {
    if list != [] {
      assert list == [list[0]] + list[1..];
      ListIds(list[1..], list[0]);
      WithoutAbsent(list[1..], id);
    }
  }

  /** Filtering by an id keeps the rest in order; from a list with distinct ids it takes one entry. */
  lemma {:induction false} WithoutMeaning(list: seq<Entry>, id: nat)
    requires Distinct(list)
    ensures Distinct(Without(list, id)) && Ids(Without(list, id)) == Ids(list) - {id}
  {
    if list != [] {
      var e, rest := list[0], list[1..];
      assert list == [e] + rest;
      ListIds(rest, e);
      assert e.id !in Ids(rest);
      WithoutMeaning(rest, id);
      if e.id == id {
        WithoutAbsent(rest, id);
      } else {
        ListIds(Without(rest, id), e);
      }
    }
  }

  lemma {:induction false} WithoutTakesOne(list: seq<Entry>, id: nat) returns (k: nat)
    requires Distinct(list) && id in Ids(list)
    ensures k < |list| && list[k].id == id && Without(list, id) == list[..k] + list[k + 1..]
  {
    hide *;
    HeadOrTail(list, id);
    if list[0].id == id {
      k := 0;
      WithoutHead(list, id);
    } else {
      var n := WithoutTakesOne(list[1..], id);
      WithoutLater(list, id, n);
      k := n + 1;
    }
  }

  lemma HeadOrTail(list: seq<Entry>, id: nat)
    requires Distinct(list) && id in Ids(list)
    ensures list != [] && (list[0].id == id || (Distinct(list[1..]) && id in Ids(list[1..])))
  {
    assert list == [list[0]] + list[1..];
    ListIds(list[1..], list[0]);
  }

  lemma WithoutHead(list: seq<Entry>, id: nat)
    requires Distinct(list) && list != [] && list[0].id == id
    ensures Without(list, id) == list[..0] + list[1..]
  {
    WithoutAbsent(list[1..], id);
  }

  lemma WithoutLater(list: seq<Entry>, id: nat, n: nat)
    requires list != [] && list[0].id != id && n + 1 < |list|
    requires Without(list[1..], id) == list[1..][..n] + list[1..][n + 1..]
    ensures Without(list, id) == list[..n + 1] + list[n + 2..]
  {
    assert [list[0]] + list[1..][..n] == list[..n + 1] && list[1..][n + 1..] == list[n + 2..];
  }

  // ----- the invariant -----

  predicate Pending(op: Op) {
    op.Update? && op.pc != Done
  }

  /** The id an update adds or removes. */
  function IdOf(c: Change): nat {
    if c.Added? then c.entry.id else c.id
  }

  ghost predicate OpOk(s: State, op: Op) {
    match op
    case Update(Added(e), pc) =>
      && e.id < s.nextId
      && (pc == Done ==> Added(e) in s.log)
      && (pc != Done ==> e.id !in AddedIds(s.log) && e.id !in s.held)
      && (pc.Loaded? ==> pc.version <= s.version && (pc.version == s.version ==> pc.snapshot == s.list))
    case Update(Removed(id), pc) =>
      && id in AddedIds(s.log) && id !in s.held
      && (pc == Done <==> id in RemovedIds(s.log))
      && (pc.Loaded? ==> pc.version <= s.version && (pc.version == s.version ==> pc.snapshot == s.list))
    case Emit(snapshot, at, called) =>
      && at <= |s.log| && snapshot == Replay(s.log[..at])
      && |called| <= |snapshot| && called == Callbacks(snapshot)[..|called|]
  }

  /** Two updates never add the same id, nor remove the same id. */
  ghost predicate Apart(a: Op, b: Op) {
    a.Update? && b.Update? && (a.change.Added? <==> b.change.Added?) ==> IdOf(a.change) != IdOf(b.change)
  }

  ghost predicate OpsApart(ops: map<OpId, Op>) {
    forall o, p | o in ops && p in ops && o != p :: Apart(ops[o], ops[p])
  }

  ghost predicate LogInv(s: State) {
    && LogOk(s.log) && s.list == Replay(s.log) && s.version == |s.log|
    && (forall i | i in s.held :: i in AddedIds(s.log) && i !in RemovedIds(s.log))
    && (forall i | i in AddedIds(s.log) :: i < s.nextId)
  }

  ghost predicate Inv(s: State) {
    && LogInv(s)
    && (forall o | o in s.ops :: OpOk(s, s.ops[o]))
    && OpsApart(s.ops)
  }

  lemma AddKeepsInv(s: State, o: OpId, cb: Callback)
    requires Inv(s) && Next(s, BeginAdd(o, cb)).Some?
    ensures Inv(Next(s, BeginAdd(o, cb)).value)
  {
    hide LogOk, AddedIds, RemovedIds, Replay;
    var s' := Next(s, BeginAdd(o, cb)).value;
    forall p | p in s.ops ensures OpOk(s', s.ops[p]) && Apart(s.ops[p], s'.ops[o]) {
      assert OpOk(s, s.ops[p]);
    }
  }

  lemma DropKeepsInv(s: State, o: OpId, id: nat)
    requires Inv(s) && Next(s, BeginDrop(o, id)).Some?
    ensures Inv(Next(s, BeginDrop(o, id)).value)
  {
    hide LogOk, AddedIds, RemovedIds, Replay;
    var s' := Next(s, BeginDrop(o, id)).value;
    forall p | p in s.ops ensures OpOk(s', s.ops[p]) && Apart(s.ops[p], s'.ops[o]) {
      assert OpOk(s, s.ops[p]);
    }
  }

  /** An op that moves on without touching the list. */
  lemma MovedKeepsInv(s: State, o: OpId, op: Op)
    requires Inv(s) && OpOk(s, op)
    requires o in s.ops ==> op.Update? == s.ops[o].Update? && (op.Update? ==> op.change == s.ops[o].change)
    requires o !in s.ops ==> op.Emit?
    ensures Inv(s.(ops := s.ops[o := op]))
  {
    hide LogOk, AddedIds, RemovedIds, Replay;
    var s' := s.(ops := s.ops[o := op]);
    forall p | p in s'.ops ensures OpOk(s', s'.ops[p]) {
      assert OpOk(s, s'.ops[p]);
    }
  }

  lemma SwappedLog(s: State, c: Change, held: set<nat>)
    requires LogInv(s) && IdOf(c) < s.nextId
    requires c.Added? ==> c.entry.id !in AddedIds(s.log) && held == s.held + {c.entry.id}
    requires c.Removed? ==> c.id in AddedIds(s.log) && c.id !in RemovedIds(s.log) && c.id !in s.held && held == s.held
    ensures LogInv(State(Apply(s.list, c), s.version + 1, s.nextId, held, s.ops, s.log + [c]))
  {
    IdsSnoc(s.log, c);
    ReplayIsLiveAdds(s.log);
    assert (s.log + [c])[..|s.log|] == s.log;
    hide AddedIds, RemovedIds;
  }

  lemma SwapKeepsInv(s: State, o: OpId)
    requires Inv(s) && SwapStep(s, o).Some? && s.ops[o].pc.version == s.version
    ensures Inv(SwapStep(s, o).value)
  {
    hide LogOk, AddedIds, RemovedIds, Replay, LogInv, Apply;
    var c, s' := s.ops[o].change, SwapStep(s, o).value;
    assert OpOk(s, s.ops[o]);
    IdsSnoc(s.log, c);
    AddedBelow(s);
    SwappedLog(s, c, s'.held);
    SameLogInv(State(Apply(s.list, c), s.version + 1, s.nextId, s'.held, s.ops, s.log + [c]), s'.ops);
    forall p | p in s'.ops ensures OpOk(s', s'.ops[p]) {
      SwapKeepsOp(s, o, s', p);
    }
  }

  lemma AddedBelow(s: State)
    requires LogInv(s)
    ensures forall i | i in AddedIds(s.log) :: i < s.nextId
  {
  }

  lemma SameLogInv(s: State, ops: map<OpId, Op>)
    requires LogInv(s)
    ensures LogInv(s.(ops := ops))
  {
  }

  lemma SwapKeepsOp(s: State, o: OpId, s': State, p: OpId)
    requires o in s.ops && s.ops[o].Update? && s.ops[o].pc.Loaded? && OpOk(s, s.ops[o])
    requires p in s.ops && OpOk(s, s.ops[p]) && (p != o ==> Apart(s.ops[o], s.ops[p]))
    requires var c := s.ops[o].change;
             && s'.log == s.log + [c] && s'.version == s.version + 1 && s'.nextId == s.nextId
             && s'.held == (if c.Added? then s.held + {c.entry.id} else s.held)
             && s'.ops == s.ops[o := Update(c, Done)]
             && AddedIds(s'.log) == AddedIds(s.log) + (if c.Added? then {c.entry.id} else {})
             && RemovedIds(s'.log) == RemovedIds(s.log) + (if c.Removed? then {c.id} else {})
    ensures OpOk(s', s'.ops[p])
  {
    hide LogOk, AddedIds, RemovedIds, Replay;
    if s.ops[p].Emit? {
      assert s'.log[..s.ops[p].at] == s.log[..s.ops[p].at];
    }
    assert s.ops[o].change in s'.log;
  }

  lemma EmitStartKeepsInv(s: State, o: OpId)
    requires Inv(s) && o !in s.ops
    ensures Inv(s.(ops := s.ops[o := Emit(s.list, |s.log|, [])]))
  {
    assert s.log[..|s.log|] == s.log;
    assert OpOk(s, Emit(s.list, |s.log|, []));
    MovedKeepsInv(s, o, Emit(s.list, |s.log|, []));
  }

  lemma CallKeepsInv(s: State, o: OpId)
    requires Inv(s) && Next(s, CallNext(o)).Some?
    ensures Inv(Next(s, CallNext(o)).value)
  {
    hide LogOk, AddedIds, RemovedIds, Replay;
    var op := s.ops[o];
    assert OpOk(s, op);
    MovedKeepsInv(s, o, op.(called := op.called + [op.snapshot[|op.called|].cb]));
  }

  lemma LoadedKeepsInv(s: State, o: OpId)
    requires Inv(s) && o in s.ops && Pending(s.ops[o])
    ensures Inv(s.(ops := s.ops[o := s.ops[o].(pc := Loaded(s.list, s.version))]))
  {
    hide LogOk, AddedIds, RemovedIds, Replay, LogInv;
    assert OpOk(s, s.ops[o]);
    MovedKeepsInv(s, o, s.ops[o].(pc := Loaded(s.list, s.version)));
  }

  /** One step from a state that satisfies the invariant leads to one that does. */
  lemma StepKeepsInv(s: State, step: Step)
    requires Inv(s) && Next(s, step).Some?
    ensures Inv(Next(s, step).value)
  {
    hide Inv, Apply;
    match step
    case BeginAdd(o, cb) => AddKeepsInv(s, o, cb);
    case BeginDrop(o, id) => DropKeepsInv(s, o, id);
    case Load(o) => LoadedKeepsInv(s, o);
    case Swap(o) => if s.ops[o].pc.version == s.version { SwapKeepsInv(s, o); } else { LoadedKeepsInv(s, o); }
    case BeginEmit(o) => EmitStartKeepsInv(s, o);
    case CallNext(o) => CallKeepsInv(s, o);
  }

  lemma {:induction false} ReachableInv(steps: seq<Step>)
    requires Exec(steps).Some?
    ensures Inv(Exec(steps).value)
  {
    if steps != [] {
      ReachableInv(steps[..|steps| - 1]);
      StepKeepsInv(Exec(steps[..|steps| - 1]).value, steps[|steps| - 1]);
    }
  }

  // ----- what holds in every run -----

  /** The list is the completed adds whose drop has not completed, in swap order, with distinct ids. */
  lemma ListIsLiveAdds(steps: seq<Step>)
    requires Exec(steps).Some?
    ensures var s := Exec(steps).value;
            && s.list == LiveAdds(s.log, RemovedIds(s.log))
            && Distinct(s.list)
            && (forall o | o in s.ops && s.ops[o].Update? && s.ops[o].change.Added? ::
                  s.ops[o].pc == Done <==> s.ops[o].change in s.log)
            && (forall o | o in s.ops && s.ops[o].Update? && s.ops[o].change.Removed? ::
                  s.ops[o].pc == Done <==> s.ops[o].change in s.log)
  {
    ReachableInv(steps);
    var s := Exec(steps).value;
    ReplayIsLiveAdds(s.log);
    forall o | o in s.ops && s.ops[o].Update? ensures s.ops[o].pc == Done <==> s.ops[o].change in s.log {
      assert OpOk(s, s.ops[o]);
    }
  }

  /** The swap of a drop takes exactly the one entry of its own subscription out of the list. */
  lemma DropTakesItsOwn(steps: seq<Step>, o: OpId, id: nat) returns (k: nat)
    requires Exec(steps + [Swap(o)]).Some? && Exec(steps).Some?
    requires o in Exec(steps).value.ops && Exec(steps).value.ops[o].Update?
    requires Exec(steps).value.ops[o].change == Removed(id)
    requires Exec(steps).value.ops[o].pc.Loaded? && Exec(steps).value.ops[o].pc.version == Exec(steps).value.version
    ensures var list := Exec(steps).value.list;
            k < |list| && list[k].id == id && Exec(steps + [Swap(o)]).value.list == list[..k] + list[k + 1..]
  {
    var s := Exec(steps).value;
    assert (steps + [Swap(o)])[..|steps|] == steps;
    ReachableInv(steps);
    assert OpOk(s, s.ops[o]);
    ReplayIsLiveAdds(s.log);
    hide Inv, OpOk, LogOk, Replay;
    k := WithoutTakesOne(s.list, id);
  }

  /** Once a drop has swapped, no later state lists its id again. */
  lemma {:induction false} NeverResurrected(steps: seq<Step>, more: seq<Step>, id: nat)
    requires Exec(steps + more).Some? && Exec(steps).Some? && id in RemovedIds(Exec(steps).value.log)
    ensures id in RemovedIds(Exec(steps + more).value.log) && id !in Ids(Exec(steps + more).value.list)
  {
    if more == [] {
      assert steps + more == steps;
    } else {
      var m := more[..|more| - 1];
      assert (steps + more)[..|steps + more| - 1] == steps + m;
      NeverResurrected(steps, m, id);
      LogGrows(Exec(steps + m).value, more[|more| - 1]);
    }
    ReachableInv(steps + more);
    ReplayIsLiveAdds(Exec(steps + more).value.log);
  }

  lemma LogGrows(s: State, step: Step)
    requires Next(s, step).Some?
    ensures RemovedIds(s.log) <= RemovedIds(Next(s, step).value.log)
  {
    var s' := Next(s, step).value;
    assert s.log <= s'.log;
    assert forall c | c in s.log :: c in s'.log;
  }

  /** A swap fails only because another one succeeded after the load: some update always gets through. */
  lemma RetryMeansProgress(steps: seq<Step>, o: OpId)
    requires Exec(steps).Some? && o in Exec(steps).value.ops
    requires Exec(steps).value.ops[o].Update? && Exec(steps).value.ops[o].pc.Loaded?
    requires Exec(steps).value.ops[o].pc.version != Exec(steps).value.version
    ensures |Exec(steps).value.log| > Exec(steps).value.ops[o].pc.version
  {
    ReachableInv(steps);
    assert OpOk(Exec(steps).value, Exec(steps).value.ops[o]);
  }

  /** A finished emit has called, in order and once each, exactly the subscribers listed at one moment. */
  lemma EmitCallsOneSnapshot(steps: seq<Step>, o: OpId)
    requires Exec(steps).Some? && o in Exec(steps).value.ops && Exec(steps).value.ops[o].Emit?
    requires |Exec(steps).value.ops[o].called| == |Exec(steps).value.ops[o].snapshot|
    ensures var s := Exec(steps).value; var op := s.ops[o];
            && op.at <= |s.log|
            && op.called == Callbacks(LiveAdds(s.log[..op.at], RemovedIds(s.log[..op.at])))
  {
    ReachableInv(steps);
    var s := Exec(steps).value;
    assert OpOk(s, s.ops[o]);
    LogOkPrefix(s.log, s.ops[o].at);
    ReplayIsLiveAdds(s.log[..s.ops[o].at]);
    assert Callbacks(s.ops[o].snapshot)[..|s.ops[o].called|] == Callbacks(s.ops[o].snapshot);
  }

  lemma {:induction false} LogOkPrefix(log: seq<Change>, n: nat)
    requires LogOk(log) && n <= |log|
    ensures LogOk(log[..n])
  {
    if n == |log| {
      assert log[..n] == log;
    } else {
      assert log[..|log| - 1][..n] == log[..n];
      LogOkPrefix(log[..|log| - 1], n);
    }
  }

  /** Ids are not sorted in the list: an add that minted its id first may swap last. */
  lemma IdsNeedNotBeSorted()
    ensures var s := Exec([BeginAdd(0, 7), BeginAdd(1, 8), Load(1), Swap(1), Load(0), Swap(0)]);
            s.Some? && s.value.list == [Entry(1, 8), Entry(0, 7)]
  {
    hide Exec;
    var e0, e1 := Entry(0, 7), Entry(1, 8);
    var s1 := State([], 0, 1, {}, map[0 := Update(Added(e0), Start)], []);
    var s2 := s1.(nextId := 2, ops := s1.ops[1 := Update(Added(e1), Start)]);
    var s3 := s2.(ops := s2.ops[1 := Update(Added(e1), Loaded([], 0))]);
    var s4 := State([] + [e1], 1, 2, {} + {1}, s3.ops[1 := Update(Added(e1), Done)], [] + [Added(e1)]);
    var s5 := s4.(ops := s4.ops[0 := Update(Added(e0), Loaded(s4.list, 1))]);
    var steps: seq<Step> := [BeginAdd(0, 7), BeginAdd(1, 8), Load(1), Swap(1), Load(0), Swap(0)];
    ExecNone();
    assert steps[..0] == [];
    ExecTo(steps, 0, INIT, s1);
    ExecTo(steps, 1, s1, s2);
    ExecTo(steps, 2, s2, s3);
    ExecTo(steps, 3, s3, s4);
    ExecTo(steps, 4, s4, s5);
    var s6 := State(s5.list + [e0], 2, 2, s5.held + {0}, s5.ops[0 := Update(Added(e0), Done)], s5.log + [Added(e0)]);
    ExecTo(steps, 5, s5, s6);
    assert steps[..6] == steps;
  }

  lemma ExecNone()
    ensures Exec([]) == Some(INIT)
  {
  }

  lemma ExecTo(steps: seq<Step>, n: nat, before: State, after: State)
    requires n < |steps| && Exec(steps[..n]) == Some(before) && Next(before, steps[n]) == Some(after)
    ensures Exec(steps[..n + 1]) == Some(after)
  {
    assert steps[..n + 1][..n] == steps[..n];
  }
}
