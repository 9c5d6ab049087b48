/** Event streams over a broadcast receiver, for CDP sessions and for BiDi, typed and raw.

    What a deserializer makes of an event is a parameter. An event's parameters are their JSON text. */
module EventStreams {
  import opened Wrappers
  import opened Utf8

  type SessionId = string

  datatype RawEvent = RawEvent(name: string, params: string, sessionId: Option<SessionId>)

  /** What the receiver hands over: an event, or the notice that some were lost. */
  datatype Item = Lagged(count: nat) | Event(raw: RawEvent)

  datatype Filter =
    | CdpTyped(session: Option<SessionId>, name: string)
    | CdpRaw(session: Option<SessionId>)
    | BidiTyped(name: string)
    | BidiRaw

  predicate Accepts(f: Filter, raw: RawEvent) {
    match f
    case CdpTyped(session, name) => raw.name == name && raw.sessionId == session
    case CdpRaw(session) => raw.sessionId == session
    case BidiTyped(name) => raw.name == name
    case BidiRaw => true
  }

  const PREVIEW: nat := 200

  /** The warning about an undecodable event slices its parameters at a fixed byte offset, which a longer
      text need not have a character boundary at. */
  predicate PreviewPanics(params: string) {
    ByteLen(params) > PREVIEW && !IsBoundary(params, PREVIEW)
  }

  datatype Verdict<+T> = Skip | Yield(value: T) | Poison

  function Judge<T>(f: Filter, decode: RawEvent -> Option<T>, item: Item): Verdict<T> {
    if item.Lagged? || !Accepts(f, item.raw) then Skip
    else
      var v := decode(item.raw);
      if v.Some? then Yield(v.value) else if PreviewPanics(item.raw.params) then Poison else Skip
  }

  datatype Poll<+T> = Pending | Ready(item: Option<T>) | Panicked

  /** The in-order decoding of the accepted, decodable events. */
  function Decoded<T>(f: Filter, decode: RawEvent -> Option<T>, items: seq<Item>): seq<T> {
    if items == [] then []
    else
      var v := Judge(f, decode, items[|items| - 1]);
      Decoded(f, decode, items[..|items| - 1]) + (if v.Yield? then [v.value] else [])
  }

  /** How many items a poll takes: up to the first that is not skipped. */
  function Taken<T>(f: Filter, decode: RawEvent -> Option<T>, queue: seq<Item>): (n: nat)
    ensures n <= |queue|
  {
    if queue == [] then 0
    else if Judge(f, decode, queue[0]).Skip? then 1 + Taken(f, decode, queue[1..])
    else 1
  }

  function Answer<T>(f: Filter, decode: RawEvent -> Option<T>, queue: seq<Item>, closed: bool): Poll<T> {
    var n := Taken(f, decode, queue);
    var v := if n == 0 then Skip else Judge(f, decode, queue[n - 1]);
    match v
    case Yield(x) => Ready(Some(x))
    case Poison => Panicked
    case Skip => if closed then Ready(None) else Pending
  }

  lemma {:induction false} TakenStops<T>(f: Filter, decode: RawEvent -> Option<T>, queue: seq<Item>)
    ensures var n := Taken(f, decode, queue);
            && (forall i | 0 <= i < n - 1 :: Judge(f, decode, queue[i]).Skip?)
            && (n == |queue| || (n > 0 && !Judge(f, decode, queue[n - 1]).Skip?))
  {
    if queue != [] {
      TakenStops(f, decode, queue[1..]);
      var n := Taken(f, decode, queue);
      assert n > 1 ==> queue[1..][n - 2] == queue[n - 1];
      assert forall i | 0 < i < n - 1 :: queue[i] == queue[1..][i - 1];
    }
  }

  /** The first item that is not skipped is at `k`. */
  ghost predicate FirstAt<T>(f: Filter, decode: RawEvent -> Option<T>, queue: seq<Item>, k: int) {
    && 0 <= k < |queue| && !Judge(f, decode, queue[k]).Skip?
    && forall i | 0 <= i < k :: Judge(f, decode, queue[i]).Skip?
  }

  /** What a poll answers, in terms of the queue alone: it waits or ends exactly when everything is skipped, and
      otherwise yields or panics by the first item that is not. */
  lemma AnswerMeans<T>(f: Filter, decode: RawEvent -> Option<T>, queue: seq<Item>, closed: bool)
    ensures var r := Answer(f, decode, queue, closed);
            && (r == Pending <==> !closed && forall i | 0 <= i < |queue| :: Judge(f, decode, queue[i]).Skip?)
            && (r == Ready(None) <==> closed && forall i | 0 <= i < |queue| :: Judge(f, decode, queue[i]).Skip?)
            && (r.Panicked? <==> exists k :: FirstAt(f, decode, queue, k) && Judge(f, decode, queue[k]).Poison?)
            && (forall x :: r == Ready(Some(x)) <==>
                  exists k :: FirstAt(f, decode, queue, k) && Judge(f, decode, queue[k]) == Yield(x))
  {
    TakenStops(f, decode, queue);
    var n := Taken(f, decode, queue);
    hide Judge, Taken;
    if n > 0 && !Judge(f, decode, queue[n - 1]).Skip? {
      assert FirstAt(f, decode, queue, n - 1);
    }
    assert forall k | FirstAt(f, decode, queue, k) :: k == n - 1;
  }

  class BroadcastReceiver {
    var queue: seq<Item>
    var closed: bool

    constructor ()
      ensures queue == [] && !closed
    {
      queue, closed := [], false;
    }
  }

  class EventStream<T(!new)> {
    const rx: BroadcastReceiver
    const filter: Filter
    const decode: RawEvent -> Option<T>
    ghost var consumed: seq<Item>
    ghost var yielded: seq<T>

    constructor (rx: BroadcastReceiver, filter: Filter, decode: RawEvent -> Option<T>)
      ensures Valid() && this.rx == rx && this.filter == filter && this.decode == decode && consumed == []
    {
      this.rx, this.filter, this.decode, consumed, yielded := rx, filter, decode, [], [];
    }

    /** What the stream has yielded is what the consumed items decode to, in order. */
    ghost predicate Valid()
      reads this
    {
      yielded == Decoded(filter, decode, consumed)
    }

    /** What the stream has yielded, in the fields of the events it consumed. */
    lemma YieldsItsOwn()
      requires Valid()
      ensures match filter
              case CdpTyped(session, name) =>
                PicksOut(decode, consumed, yielded, (raw: RawEvent) => raw.name == name && raw.sessionId == session)
              case CdpRaw(session) => PicksOut(decode, consumed, yielded, (raw: RawEvent) => raw.sessionId == session)
              case BidiTyped(name) => PicksOut(decode, consumed, yielded, (raw: RawEvent) => raw.name == name)
              case BidiRaw => PicksOut(decode, consumed, yielded, (raw: RawEvent) => true)
    {
      hide PicksOut, Decoded;
      match filter
      case CdpTyped(session, name) => StreamsYield(decode, consumed, session, name);
      case CdpRaw(session) => StreamsYield(decode, consumed, session, "");
      case BidiTyped(name) => StreamsYield(decode, consumed, None, name);
      case BidiRaw => StreamsYield(decode, consumed, None, "");
    }

    /** `poll_next`: drain the receiver up to the first item that is not skipped. */
    method PollNext() returns (r: Poll<T>)
      requires Valid()
      modifies this, rx
      ensures Valid() && rx.closed == old(rx.closed)
      ensures r == Answer(filter, decode, old(rx.queue), rx.closed)
      ensures rx.queue == old(rx.queue)[Taken(filter, decode, old(rx.queue))..]
      ensures consumed == old(consumed) + old(rx.queue)[..Taken(filter, decode, old(rx.queue))]
      ensures yielded == old(yielded) + if r.Ready? && r.item.Some? then [r.item.value] else []
    {
      hide Decoded, Taken, Answer, PreviewPanics, Accepts;
      ghost var queue, k := rx.queue, 0;
      assert queue[0..] == queue;
      while true
        invariant Valid() && rx.closed == old(rx.closed) && yielded == old(yielded)
        invariant k <= |queue| && rx.queue == queue[k..] && consumed == old(consumed) + queue[..k]
        invariant forall i | 0 <= i < k :: Judge(filter, decode, queue[i]).Skip?
        decreases |rx.queue|
      {
        if rx.queue == [] {
          AllSkipped(filter, decode, queue, rx.closed);
          assert queue[..k] == queue;
          return if rx.closed then Ready(None) else Pending;
        }
        var item := rx.queue[0];
        rx.queue := rx.queue[1..];
        DecodedSnoc(filter, decode, consumed, item);
        consumed := consumed + [item];
        assert item == queue[k] && queue[..k + 1] == queue[..k] + [item];
        assert consumed == old(consumed) + queue[..k + 1];
        if item.Event? && Accepts(filter, item.raw) {
          var parsed := decode(item.raw);
          if parsed.Some? {
            StopsAt(filter, decode, queue, rx.closed, k);
            yielded := yielded + [parsed.value];
            return Ready(parsed);
          }
          if PreviewPanics(item.raw.params) {
            StopsAt(filter, decode, queue, rx.closed, k);
            return Panicked;
          }
        }
        k := k + 1;
      }
    }
  }

  lemma DecodedSnoc<T>(f: Filter, decode: RawEvent -> Option<T>, items: seq<Item>, item: Item)
    ensures var v := Judge(f, decode, item);
            Decoded(f, decode, items + [item]) == Decoded(f, decode, items) + if v.Yield? then [v.value] else []
    ensures Judge(f, decode, item).Skip? || Judge(f, decode, item).Poison? ==>
              Decoded(f, decode, items + [item]) == Decoded(f, decode, items)
  {
    assert (items + [item])[..|items|] == items;
    assert Decoded(f, decode, items) + [] == Decoded(f, decode, items);
  }

  lemma {:induction false} StopsAt<T>(f: Filter, decode: RawEvent -> Option<T>, queue: seq<Item>, closed: bool, k: nat)
    requires k < |queue| && (forall i | 0 <= i < k :: Judge(f, decode, queue[i]).Skip?)
    requires !Judge(f, decode, queue[k]).Skip?
    ensures Taken(f, decode, queue) == k + 1
    ensures Answer(f, decode, queue, closed) ==
            match Judge(f, decode, queue[k])
            case Yield(x) => Ready(Some(x))
            case _ => Panicked
  {
    hide Judge;
    if k > 0 {
      assert queue[1..][k - 1] == queue[k];
      assert forall i | 0 <= i < k - 1 :: queue[1..][i] == queue[i + 1];
      StopsAt(f, decode, queue[1..], closed, k - 1);
    }
  }

  lemma {:induction false} AllSkipped<T>(f: Filter, decode: RawEvent -> Option<T>, queue: seq<Item>, closed: bool)
    requires forall i | 0 <= i < |queue| :: Judge(f, decode, queue[i]).Skip?
    ensures Taken(f, decode, queue) == |queue|
    ensures Answer(f, decode, queue, closed) == if closed then Ready(None) else Pending
  {
    hide Judge;
    if queue != [] {
      AllSkipped(f, decode, queue[1..], closed);
      assert |queue| > 1 ==> queue[1..][|queue| - 2] == queue[|queue| - 1];
    }
  }

  // ----- every schedule of arrivals and polls -----

  datatype Action = Arrive(item: Item) | Close | PollOnce

  datatype Run<T> = Run(queue: seq<Item>, closed: bool, arrived: seq<Item>, consumed: seq<Item>, answers: seq<Poll<T>>)

  /** A poll does what `PollNext` ensures; nothing arrives after the sender is gone. */
  function After<T>(f: Filter, decode: RawEvent -> Option<T>, actions: seq<Action>): Run<T> {
    if actions == [] then Run([], false, [], [], [])
    else
      var r := After(f, decode, actions[..|actions| - 1]);
      match actions[|actions| - 1]
      case Arrive(item) =>
        if r.closed then r else r.(queue := r.queue + [item], arrived := r.arrived + [item])
      case Close => r.(closed := true)
      case PollOnce =>
        var n := Taken(f, decode, r.queue);
        r.(queue := r.queue[n..], consumed := r.consumed + r.queue[..n],
           answers := r.answers + [Answer(f, decode, r.queue, r.closed)])
  }

  function Yielded<T>(answers: seq<Poll<T>>): seq<T> {
    if answers == [] then []
    else
      var a := answers[|answers| - 1];
      Yielded(answers[..|answers| - 1]) + (if a.Ready? && a.item.Some? then [a.item.value] else [])
  }

  lemma {:induction false} DecodedTaken<T>(f: Filter, decode: RawEvent -> Option<T>, before: seq<Item>, queue: seq<Item>, n: nat)
    requires n <= |queue| && forall i | 0 <= i < n :: Judge(f, decode, queue[i]).Skip?
    ensures Decoded(f, decode, before + queue[..n]) == Decoded(f, decode, before)
  {
    if n == 0 {
      assert before + queue[..0] == before;
    } else {
      assert (before + queue[..n])[..|before| + n - 1] == before + queue[..n - 1];
      DecodedTaken(f, decode, before, queue, n - 1);
    }
  }

  lemma PollKeeps<T>(f: Filter, decode: RawEvent -> Option<T>, consumed: seq<Item>, queue: seq<Item>, closed: bool)
    ensures var n := Taken(f, decode, queue);
            var r := Answer(f, decode, queue, closed);
            Decoded(f, decode, consumed + queue[..n]) ==
            Decoded(f, decode, consumed) + if r.Ready? && r.item.Some? then [r.item.value] else []
  {
    hide Judge, Taken, Decoded;
    TakenStops(f, decode, queue);
    var n := Taken(f, decode, queue);
    if n > 0 {
      DecodedTaken(f, decode, consumed, queue, n - 1);
      DecodedSnoc(f, decode, consumed + queue[..n - 1], queue[n - 1]);
      assert consumed + queue[..n] == consumed + queue[..n - 1] + [queue[n - 1]];
    } else {
      assert consumed + queue[..0] == consumed;
    }
    assert Decoded(f, decode, consumed) + [] == Decoded(f, decode, consumed);
  }

  /** After any schedule: consumed and queued items are the arrived ones, in order, and the polls yielded
      exactly the decoding of the consumed ones. */
  lemma {:induction false} EveryScheduleYieldsDecoded<T>(f: Filter, decode: RawEvent -> Option<T>, actions: seq<Action>)
    ensures var r := After(f, decode, actions);
            r.consumed + r.queue == r.arrived && Yielded(r.answers) == Decoded(f, decode, r.consumed)
  {
    hide Judge, Answer, Taken, Decoded;
    if actions == [] {
      NothingDecoded(f, decode);
    } else {
      var before := After(f, decode, actions[..|actions| - 1]);
      EveryScheduleYieldsDecoded(f, decode, actions[..|actions| - 1]);
      match actions[|actions| - 1]
      case Arrive(item) =>
        assert before.consumed + (before.queue + [item]) == before.consumed + before.queue + [item];
      case Close =>
      case PollOnce =>
        PollKeeps(f, decode, before.consumed, before.queue, before.closed);
        SplitQueue(before.consumed, before.queue, Taken(f, decode, before.queue));
        YieldedSnoc(before.answers, Answer(f, decode, before.queue, before.closed));
    }
  }

  lemma NothingDecoded<T>(f: Filter, decode: RawEvent -> Option<T>)
    ensures Decoded(f, decode, []) == []
  {
  }

  lemma SplitQueue(consumed: seq<Item>, queue: seq<Item>, n: nat)
    requires n <= |queue|
    ensures consumed + queue[..n] + queue[n..] == consumed + queue
  {
  }

  lemma YieldedSnoc<T>(answers: seq<Poll<T>>, a: Poll<T>)
    ensures Yielded(answers + [a]) == Yielded(answers) + if a.Ready? && a.item.Some? then [a.item.value] else []
  {
    assert (answers + [a])[..|answers|] == answers;
  }

  // ----- which events a stream yields, in their own fields -----

  ghost predicate WantedAt<T>(decode: RawEvent -> Option<T>, items: seq<Item>, wants: RawEvent -> bool, i: nat)
    requires i < |items|
  {
    items[i].Event? && wants(items[i].raw) && decode(items[i].raw).Some?
  }

  /** `values` are the decodings of the events at the places `at`, which are in order and all that are wanted and decode. */
  ghost predicate PickedAt<T>(decode: RawEvent -> Option<T>, items: seq<Item>, values: seq<T>, wants: RawEvent -> bool,
                              at: seq<nat>)
  {
    && |at| == |values|
    && (forall j, k | 0 <= j < k < |at| :: at[j] < at[k])
    && (forall j | 0 <= j < |at| :: at[j] < |items| && WantedAt(decode, items, wants, at[j])
                                    && decode(items[at[j]].raw) == Some(values[j]))
    && (forall i: nat | i < |items| && WantedAt(decode, items, wants, i) :: i in at)
  }

  /** `values` are exactly the wanted events that decode, decoded, each once and in order. */
  ghost predicate PicksOut<T(!new)>(decode: RawEvent -> Option<T>, items: seq<Item>, values: seq<T>, wants: RawEvent -> bool) {
    exists at :: PickedAt(decode, items, values, wants, at)
  }

  lemma {:induction false} DecodedPicksOut<T>(f: Filter, decode: RawEvent -> Option<T>, items: seq<Item>, wants: RawEvent -> bool)
    returns (at: seq<nat>)
    requires forall raw :: Accepts(f, raw) <==> wants(raw)
    ensures PickedAt(decode, items, Decoded(f, decode, items), wants, at)
  {
    if items == [] {
      at := [];
    } else {
      var n := |items| - 1;
      at := DecodedPicksOut(f, decode, items[..n], wants);
      PickSnoc(decode, items, Decoded(f, decode, items[..n]), wants, at);
      if WantedAt(decode, items, wants, n) {
        at := at + [n];
      }
    }
  }

  lemma PickSnoc<T>(decode: RawEvent -> Option<T>, items: seq<Item>, values: seq<T>, wants: RawEvent -> bool, at: seq<nat>)
    requires items != [] && PickedAt(decode, items[..|items| - 1], values, wants, at)
    ensures var n := |items| - 1;
            if WantedAt(decode, items, wants, n)
            then PickedAt(decode, items, values + [decode(items[n].raw).value], wants, at + [n])
            else PickedAt(decode, items, values, wants, at)
  {
    var n := |items| - 1;
    forall i: nat | i < n ensures WantedAt(decode, items, wants, i) <==> WantedAt(decode, items[..n], wants, i) {
    }
    if WantedAt(decode, items, wants, n) {
      var more := at + [n];
      assert more[|at|] == n;
      forall i: nat | i < |items| && WantedAt(decode, items, wants, i) ensures i in more {
        assert i < n ==> i in at;
      }
    }
  }

  /** What each stream yields of the items it consumes: a typed CDP stream the events of its name and its session, a raw
      one those of its session, a typed BiDi stream those of its name, a raw one every event. */
  lemma StreamsYield<T(!new)>(decode: RawEvent -> Option<T>, items: seq<Item>, session: Option<SessionId>, name: string)
    ensures PicksOut(decode, items, Decoded(CdpTyped(session, name), decode, items),
                     (raw: RawEvent) => raw.name == name && raw.sessionId == session)
    ensures PicksOut(decode, items, Decoded(CdpRaw(session), decode, items), (raw: RawEvent) => raw.sessionId == session)
    ensures PicksOut(decode, items, Decoded(BidiTyped(name), decode, items), (raw: RawEvent) => raw.name == name)
    ensures PicksOut(decode, items, Decoded(BidiRaw, decode, items), (raw: RawEvent) => true)
  {
    hide PickedAt;
    var a := DecodedPicksOut(CdpTyped(session, name), decode, items,
                             (raw: RawEvent) => raw.name == name && raw.sessionId == session);
    var b := DecodedPicksOut(CdpRaw(session), decode, items, (raw: RawEvent) => raw.sessionId == session);
    var c := DecodedPicksOut(BidiTyped(name), decode, items, (raw: RawEvent) => raw.name == name);
    var d := DecodedPicksOut(BidiRaw, decode, items, (raw: RawEvent) => true);
  }

  /** After any schedule: the polls of a typed CDP stream yielded exactly the decodable events of its name and session
      among the consumed items, which are the first of the arrived ones; likewise for the other streams. */
  lemma EveryScheduleYieldsItsOwn<T(!new)>(f: Filter, decode: RawEvent -> Option<T>, actions: seq<Action>)
    ensures var r := After(f, decode, actions);
            && r.consumed <= r.arrived
            && match f
               case CdpTyped(session, name) =>
                 PicksOut(decode, r.consumed, Yielded(r.answers), (raw: RawEvent) => raw.name == name && raw.sessionId == session)
               case CdpRaw(session) =>
                 PicksOut(decode, r.consumed, Yielded(r.answers), (raw: RawEvent) => raw.sessionId == session)
               case BidiTyped(name) => PicksOut(decode, r.consumed, Yielded(r.answers), (raw: RawEvent) => raw.name == name)
               case BidiRaw => PicksOut(decode, r.consumed, Yielded(r.answers), (raw: RawEvent) => true)
  {
    hide After, PicksOut, Decoded, Yielded;
    EveryScheduleYieldsDecoded(f, decode, actions);
    var items := After(f, decode, actions).consumed;
    match f
    case CdpTyped(session, name) => StreamsYield(decode, items, session, name);
    case CdpRaw(session) => StreamsYield(decode, items, session, "");
    case BidiTyped(name) => StreamsYield(decode, items, None, name);
    case BidiRaw => StreamsYield(decode, items, None, "");
  }

  // ----- which schedules panic -----

  /** An accepted event that does not decode and whose warning panics. */
  predicate PanicsOn<T>(f: Filter, decode: RawEvent -> Option<T>, item: Item) {
    item.Event? && Accepts(f, item.raw) && decode(item.raw).None? && PreviewPanics(item.raw.params)
  }

  lemma PoisonIs<T>(f: Filter, decode: RawEvent -> Option<T>, item: Item)
    ensures Judge(f, decode, item).Poison? <==> PanicsOn(f, decode, item)
  {
  }

  lemma TakenPoison<T>(f: Filter, decode: RawEvent -> Option<T>, queue: seq<Item>, closed: bool)
    ensures Answer(f, decode, queue, closed).Panicked? <==>
            exists item :: item in queue[..Taken(f, decode, queue)] && PanicsOn(f, decode, item)
  {
    hide Judge, Taken, PanicsOn;
    TakenStops(f, decode, queue);
    var n := Taken(f, decode, queue);
    forall i | 0 <= i < n
      ensures Judge(f, decode, queue[i]).Poison? <==> PanicsOn(f, decode, queue[i])
    {
      PoisonIs(f, decode, queue[i]);
    }
    if Answer(f, decode, queue, closed).Panicked? {
      assert queue[..n][n - 1] == queue[n - 1];
    }
  }

  /** After any schedule: some poll has panicked exactly if a consumed event is one to panic on. */
  lemma {:induction false} PanicsIffConsumed<T>(f: Filter, decode: RawEvent -> Option<T>, actions: seq<Action>)
    ensures var r := After(f, decode, actions);
            Panicked in r.answers <==> exists item :: item in r.consumed && PanicsOn(f, decode, item)
  {
    hide Taken, Answer, PanicsOn;
    if actions != [] {
      var before := After(f, decode, actions[..|actions| - 1]);
      PanicsIffConsumed(f, decode, actions[..|actions| - 1]);
      if actions[|actions| - 1] == PollOnce {
        TakenPoison(f, decode, before.queue, before.closed);
        var a := Answer(f, decode, before.queue, before.closed);
        assert a == Panicked <==> a.Panicked?;
        assert Panicked in before.answers + [a] <==> Panicked in before.answers || a == Panicked;
        ghost var more := before.queue[..Taken(f, decode, before.queue)];
        assert forall item :: item in before.consumed + more <==> item in before.consumed || item in more;
      }
    }
  }

  /** Everything arrives, then as many polls as there are items. */
  function DrainAll(items: seq<Item>): seq<Action> {
    seq(|items|, i requires 0 <= i < |items| => Arrive(items[i])) + seq(|items|, i => PollOnce)
  }

  lemma {:induction false} DrainArrives<T>(f: Filter, decode: RawEvent -> Option<T>, items: seq<Item>, k: nat)
    requires k <= |items|
    ensures var r := After(f, decode, DrainAll(items)[..k]); r.arrived == items[..k] && !r.closed && r.queue == items[..k]
  {
    hide Judge, Taken, Answer;
    if k > 0 {
      DrainArrives(f, decode, items, k - 1);
      assert DrainAll(items)[..k][..k - 1] == DrainAll(items)[..k - 1];
      assert items[..k] == items[..k - 1] + [items[k - 1]];
    }
  }

  lemma {:induction false} DrainPolls<T>(f: Filter, decode: RawEvent -> Option<T>, items: seq<Item>, k: nat)
    requires k <= |items|
    ensures var r := After(f, decode, DrainAll(items)[..|items| + k]); r.arrived == items && |r.queue| <= |items| - k
  {
    var n := |items| + k;
    if k == 0 {
      DrainArrives(f, decode, items, |items|);
      assert items[..|items|] == items;
    } else {
      DrainPolls(f, decode, items, k - 1);
      assert DrainAll(items)[..n][..n - 1] == DrainAll(items)[..n - 1];
      hide Judge, Answer;
      TakesOne(f, decode, After(f, decode, DrainAll(items)[..n - 1]).queue);
    }
  }

  lemma TakesOne<T>(f: Filter, decode: RawEvent -> Option<T>, queue: seq<Item>)
    ensures queue != [] ==> Taken(f, decode, queue) >= 1
  {
  }

  /** No schedule of these arrivals makes a poll panic exactly if none of them is an event to panic on. */
  lemma NeverPanicsIff<T>(f: Filter, decode: RawEvent -> Option<T>, items: seq<Item>)
    ensures (forall actions: seq<Action> | After(f, decode, actions).arrived == items ::
               Panicked !in After(f, decode, actions).answers)
            <==> forall item | item in items :: !PanicsOn(f, decode, item)
  {
    hide PanicsOn, After, Answer, Decoded;
    if forall item | item in items :: !PanicsOn(f, decode, item) {
      forall actions: seq<Action> | After(f, decode, actions).arrived == items
        ensures Panicked !in After(f, decode, actions).answers
      {
        PanicsIffConsumed(f, decode, actions);
        EveryScheduleYieldsDecoded(f, decode, actions);
        ghost var r := After(f, decode, actions);
        assert forall item | item in r.consumed :: item in r.consumed + r.queue;
      }
    } else {
      var actions := DrainAll(items);
      DrainPolls(f, decode, items, |items|);
      assert actions[..|items| + |items|] == actions;
      PanicsIffConsumed(f, decode, actions);
      EveryScheduleYieldsDecoded(f, decode, actions);
      assert After(f, decode, actions).consumed + [] == After(f, decode, actions).consumed;
    }
  }

  // ----- the preview slice -----

  lemma {:induction false} AsciiBytes(s: string)
    requires forall i | 0 <= i < |s| :: s[i] as int < 0x80
    ensures ByteLen(s) == |s|
  {
    if s != [] {
      AsciiBytes(s[1..]);
    }
  }

  lemma {:induction false} BoundaryAfterAscii(s: string, rest: string, offset: nat)
    requires (forall i | 0 <= i < |s| :: s[i] as int < 0x80) && offset > |s|
    ensures IsBoundary(s + rest, offset) <==> IsBoundary(rest, offset - |s|)
  {
    if s == [] {
      assert s + rest == rest;
    } else {
      assert (s + rest)[1..] == s[1..] + rest;
      BoundaryAfterAscii(s[1..], rest, offset - 1);
    }
  }

  /** A typed stream never panics on ASCII parameters, whether they decode or not. */
  lemma AsciiNeverPanics(params: string)
    requires forall i | 0 <= i < |params| :: params[i] as int < 0x80
    ensures !PreviewPanics(params)
  {
    AsciiBytes(params);
    if |params| > PREVIEW {
      AsciiBytes(params[..PREVIEW]);
      BoundaryOfPrefix(params, PREVIEW);
    }
  }

  /** A two-byte character across the offset makes the poll panic instead of skipping the event. */
  lemma TwoByteCharPanics(text: string, rest: string)
    requires |text| == PREVIEW - 1 && forall i | 0 <= i < |text| :: text[i] as int < 0x80
    ensures PreviewPanics(text + ['\U{00E9}'] + rest)
    ensures var raw := RawEvent("Test.hello", text + ['\U{00E9}'] + rest, None);
            Answer<string>(CdpTyped(None, "Test.hello"), _ => None, [Event(raw)], false) == Panicked
  {
    var tail := ['\U{00E9}'] + rest;
    assert text + ['\U{00E9}'] + rest == text + tail;
    AsciiBytes(text);
    ByteLenAppend(text, tail);
    assert tail[1..] == rest;
    BoundaryAfterAscii(text, tail, PREVIEW);
  }
}
