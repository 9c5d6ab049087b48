/** Spawning and ending one driver process (`ManagedDriverProcess`).

    The operating system is an object that knows which children run and which output pumps are
    active. What it does in each spawn attempt is a parameter. */
module Processes {
  import opened Wrappers
  import opened Strings

  type Pid = nat
  type Pump = nat
  type Port = nat

  datatype ManagerError = Spawn(message: string) | DriverNotReady | Io
  datatype Result<+T> = Ok(value: T) | Err(error: ManagerError)

  datatype Event = DriverProcessSpawned(pid: Pid, port: Port) | DriverReady(port: Port) | DriverShutdown(port: Port)

  /** How one attempt goes: no port, no child, a child that never gets ready, or a ready child. */
  datatype Attempt =
    | NoPort(error: ManagerError)
    | NoChild(port: Port, error: ManagerError)
    | NeverReady(port: Port, error: ManagerError)
    | Ready(port: Port)

  const MAX_PORT_ATTEMPTS: nat := 3

  const PHRASES: seq<string> := ["address already in use", "only one usage of each socket address", "addrinuse"]

  function ToAsciiLowercase(s: string): string {
    seq(|s|, i requires 0 <= i < |s| => if 'A' <= s[i] <= 'Z' then (s[i] as int + 32) as char else s[i])
  }

  predicate IsPortInUse(e: ManagerError) {
    e.Spawn? && exists i | 0 <= i < |PHRASES| :: Contains(ToAsciiLowercase(e.message), PHRASES[i])
  }

  /** A failure to pick a port is final; so is every other error that does not name a taken port. */
  predicate Retryable(a: Attempt) {
    (a.NoChild? || a.NeverReady?) && IsPortInUse(a.error)
  }

  /** The attempt that settles a spawn: everything before it is retried, and it is not, or it is the last. */
  ghost predicate Settles(outcome: nat -> Attempt, n: nat) {
    n < MAX_PORT_ATTEMPTS
    && (forall i: nat | i < n :: Retryable(outcome(i)))
    && (n == MAX_PORT_ATTEMPTS - 1 || !Retryable(outcome(n)))
  }

  /** Whatever the attempts come to, exactly one of them settles the spawn. */
  lemma SettledOnce(outcome: nat -> Attempt) returns (n: nat)
    ensures Settles(outcome, n)
    ensures forall m: nat | Settles(outcome, m) :: m == n
  {
    hide Retryable;
    n := 0;
    while n < MAX_PORT_ATTEMPTS - 1 && Retryable(outcome(n))
      invariant n < MAX_PORT_ATTEMPTS && forall i: nat | i < n :: Retryable(outcome(i))
    {
      n := n + 1;
    }
    forall m: nat | Settles(outcome, m)
      ensures m == n
    {
      assert m < n ==> Retryable(outcome(m));
      assert n < m ==> Retryable(outcome(n));
    }
  }

  /** `text` spells `phrase`, in any case of its letters. */
  predicate Spells(text: string, phrase: string) {
    |text| == |phrase|
    && forall i | 0 <= i < |text| ::
         text[i] == phrase[i] || ('a' <= phrase[i] <= 'z' && text[i] as int + 32 == phrase[i] as int)
  }

  ghost predicate Mentions(message: string, phrase: string) {
    exists i: nat, j: nat :: i <= j <= |message| && Spells(message[i..j], phrase)
  }

  predicate NoCapitals(s: string) {
    forall i | 0 <= i < |s| :: !('A' <= s[i] <= 'Z')
  }

  lemma SpelledAt(message: string, phrase: string, i: nat)
    requires NoCapitals(phrase) && i <= |message|
    ensures phrase <= ToAsciiLowercase(message)[i..] <==>
            i + |phrase| <= |message| && Spells(message[i..i + |phrase|], phrase)
  {
    var lower := ToAsciiLowercase(message);
    if i + |phrase| <= |message| {
      var text := message[i..i + |phrase|];
      forall k | 0 <= k < |phrase|
        ensures lower[i..][k] == phrase[k] <==>
                text[k] == phrase[k] || ('a' <= phrase[k] <= 'z' && text[k] as int + 32 == phrase[k] as int)
      {
        assert text[k] == message[i + k] && lower[i..][k] == lower[i + k];
      }
      assert phrase <= lower[i..] <==> forall k | 0 <= k < |phrase| :: lower[i..][k] == phrase[k];
    }
  }

  lemma ContainsSpelling(message: string, phrase: string)
    requires NoCapitals(phrase)
    ensures Contains(ToAsciiLowercase(message), phrase) <==> Mentions(message, phrase)
  {
    hide ToAsciiLowercase;
    if Contains(ToAsciiLowercase(message), phrase) {
      var i: nat :| i <= |ToAsciiLowercase(message)| && phrase <= ToAsciiLowercase(message)[i..];
      LowercaseLength(message);
      SpelledAt(message, phrase, i);
      assert Spells(message[i..i + |phrase|], phrase);
    }
    if Mentions(message, phrase) {
      var i: nat, j: nat :| i <= j <= |message| && Spells(message[i..j], phrase);
      LowercaseLength(message);
      SpelledAt(message, phrase, i);
      assert message[i..i + |phrase|] == message[i..j];
    }
  }

  lemma LowercaseLength(s: string)
    ensures |ToAsciiLowercase(s)| == |s|
  {
  }

  /** A failure counts as a taken port exactly if it is a spawn failure whose message has one of three phrases in it, in
      any case of letters. */
  lemma PortInUseIff(e: ManagerError)
    ensures IsPortInUse(e) <==>
            e.Spawn? && (Mentions(e.message, "address already in use")
                         || Mentions(e.message, "only one usage of each socket address")
                         || Mentions(e.message, "addrinuse"))
  {
    hide ToAsciiLowercase, NoCapitals, Contains, Mentions;
    PhrasesAre();
    if e.Spawn? {
      var lower := ToAsciiLowercase(e.message);
      ContainsSpelling(e.message, PHRASES[0]);
      ContainsSpelling(e.message, PHRASES[1]);
      ContainsSpelling(e.message, PHRASES[2]);
      assert Contains(lower, PHRASES[0]) || Contains(lower, PHRASES[1]) || Contains(lower, PHRASES[2]) <==>
             exists i | 0 <= i < |PHRASES| :: Contains(lower, PHRASES[i]);
    }
  }

  lemma PhrasesAre()
    ensures |PHRASES| == 3 && NoCapitals(PHRASES[0]) && NoCapitals(PHRASES[1]) && NoCapitals(PHRASES[2])
    ensures PHRASES[0] == "address already in use" && PHRASES[1] == "only one usage of each socket address"
            && PHRASES[2] == "addrinuse"
  {
    FirstPhrase();
    SecondPhrase();
    hide NoCapitals;
    ThirdPhrase();
  }

  lemma FirstPhrase()
    ensures NoCapitals("address already in use")
  {
  }

  lemma SecondPhrase()
    ensures NoCapitals("only one usage of each socket address")
  {
  }

  lemma ThirdPhrase()
    ensures NoCapitals("addrinuse")
  {
  }

  /** Of three attempts, the first that does not fail over a taken port settles the spawn, or else the third. */
  lemma SettlesIff(outcome: nat -> Attempt, n: nat)
    ensures Settles(outcome, n) <==>
            || (n == 0 && !TakenPort(outcome(0)))
            || (n == 1 && TakenPort(outcome(0)) && !TakenPort(outcome(1)))
            || (n == 2 && TakenPort(outcome(0)) && TakenPort(outcome(1)))
  {
    hide Retryable, TakenPort;
    TakenIsRetried(outcome(0));
    TakenIsRetried(outcome(1));
  }

  /** A child was asked for, and its failure names a taken port. */
  ghost predicate TakenPort(a: Attempt) {
    (a.NoChild? || a.NeverReady?) && a.error.Spawn?
    && (Mentions(a.error.message, "address already in use")
        || Mentions(a.error.message, "only one usage of each socket address")
        || Mentions(a.error.message, "addrinuse"))
  }

  lemma TakenIsRetried(a: Attempt)
    ensures Retryable(a) <==> TakenPort(a)
  {
    if a.NoChild? || a.NeverReady? {
      PortInUseIff(a.error);
    }
    hide IsPortInUse, Mentions;
  }

  class OperatingSystem {
    var running: set<Pid>
    var pumping: set<Pump>
    var next: nat
    var events: seq<Event>

    constructor ()
      ensures Valid() && running == {} && pumping == {} && events == []
    {
      running, pumping, next, events := {}, {}, 0, [];
    }

    ghost predicate Valid()
      reads this
    {
      (forall p | p in running :: p < next) && (forall h | h in pumping :: h < next)
    }

    method Start(port: Port) returns (pid: Pid)
      requires Valid()
      modifies this
      ensures Valid() && pid !in old(running) && running == old(running) + {pid}
      ensures pumping == old(pumping) && events == old(events) + [DriverProcessSpawned(pid, port)]
    {
      pid, next := next, next + 1;
      running := running + {pid};
      events := events + [DriverProcessSpawned(pid, port)];
    }

    method StartPump() returns (h: Pump)
      requires Valid()
      modifies this
      ensures Valid() && h !in old(pumping) && pumping == old(pumping) + {h}
      ensures running == old(running) && events == old(events)
    {
      h, next := next, next + 1;
      pumping := pumping + {h};
    }

    /** A child is killed at most once: it has to be running. */
    method Kill(pid: Pid)
      requires Valid() && pid in running
      modifies this`running
      ensures Valid() && running == old(running) - {pid}
    {
      running := running - {pid};
    }

    method AbortAll(handles: seq<Pump>)
      requires Valid()
      requires forall i | 0 <= i < |handles| :: handles[i] in pumping
      modifies this`pumping
      ensures Valid() && pumping == old(pumping) - (set h | h in handles)
    {
      ghost var before := pumping;
      for i := 0 to |handles|
        invariant Valid() && pumping == before - (set h | h in handles[..i])
      {
        pumping := pumping - {handles[i]};
      }
      assert handles[..|handles|] == handles;
    }

    method Emit(e: Event)
      modifies this`events
      ensures events == old(events) + [e]
    {
      events := events + [e];
    }
  }

  class ManagedDriverProcess {
    const os: OperatingSystem
    const port: Port
    var child: Option<Pid>
    var shutdown: bool
    var pumpHandles: seq<Pump>

    constructor (os: OperatingSystem, port: Port, pid: Pid, pumpHandles: seq<Pump>)
      requires pid in os.running && forall i | 0 <= i < |pumpHandles| :: pumpHandles[i] in os.pumping
      ensures this.os == os && this.port == port && child == Some(pid) && this.pumpHandles == pumpHandles
      ensures !shutdown && Owns()
    {
      this.os, this.port, child, shutdown, this.pumpHandles := os, port, Some(pid), false, pumpHandles;
    }

    /** What the object still holds is alive. */
    ghost predicate Owns()
      reads this, os
    {
      (child.Some? ==> child.value in os.running) && forall i | 0 <= i < |pumpHandles| :: pumpHandles[i] in os.pumping
    }

    ghost function Children(): set<Pid>
      reads this
    {
      if child.Some? then {child.value} else {}
    }

    ghost function Pumps(): set<Pump>
      reads this
    {
      set h | h in pumpHandles
    }

    /** Everything held is ended and nothing else is touched, and the end is announced exactly once. */
    twostate predicate Ended()
      reads this, os
    {
      child == None && pumpHandles == [] && shutdown
      && os.running == old(os.running) - old(Children())
      && os.pumping == old(os.pumping) - old(Pumps())
      && os.events == old(os.events) + [DriverShutdown(port)]
    }

    /** The synchronous destructor. */
    method Drop()
      requires os.Valid() && Owns()
      modifies this, os
      ensures os.Valid() && Ended()
    {
      shutdown := true;
      if child.Some? {
        os.Kill(child.value);
        child := None;
      }
      os.AbortAll(pumpHandles);
      pumpHandles := [];
      os.Emit(DriverShutdown(port));
    }

    /** `killed` says whether waiting for the killed child succeeds; a cancelled wait drops the child,
        which kills it too. The process is consumed, so its destructor runs in every case. */
    method Shutdown(killed: bool) returns (ok: bool)
      requires os.Valid() && Owns()
      modifies this, os
      ensures os.Valid() && Ended()
      ensures ok == (old(child) == None || killed)
    {
      shutdown := true;
      os.AbortAll(pumpHandles);
      pumpHandles := [];
      ok := true;
      if child.Some? {
        var pid := child.value;
        child := None;
        os.Kill(pid);
        ok := killed;
      }
      Drop();
    }
  }

  /** The event of one attempt's child, if it got one, and of its readiness. */
  function AttemptEvents(a: Attempt, pid: Pid): seq<Event> {
    match a
    case NoPort(_) => []
    case NoChild(_, _) => []
    case NeverReady(port, _) => [DriverProcessSpawned(pid, port)]
    case Ready(port) => [DriverProcessSpawned(pid, port), DriverReady(port)]
  }

  /** One attempt on a picked port. A child that never gets ready is killed and its pumps are aborted. */
  method SpawnAtPort(os: OperatingSystem, tracing: bool, attempt: Attempt)
    returns (r: Result<ManagedDriverProcess>, ghost pid: Pid)
    requires os.Valid() && !attempt.NoPort?
    modifies os
    ensures os.Valid()
    ensures r.Ok? == attempt.Ready? && (r.Err? ==> r.error == attempt.error)
    ensures r.Err? ==> os.running == old(os.running) && os.pumping == old(os.pumping)
    ensures r.Ok? ==> fresh(r.value) && Holds(r.value, os, attempt.port, tracing)
                      && r.value.child.value !in old(os.running)
                      && os.running == old(os.running) + r.value.Children()
                      && os.pumping == old(os.pumping) + r.value.Pumps() && r.value.Pumps() !! old(os.pumping)
    ensures os.events == old(os.events) + AttemptEvents(attempt, pid) && (r.Ok? ==> r.value.child == Some(pid))
  {
    if attempt.NoChild? {
      return Err(attempt.error), 0;
    }
    var started := os.Start(attempt.port);
    pid := started;
    var pumps: seq<Pump> := [];
    if tracing {
      var out := os.StartPump();
      var err := os.StartPump();
      pumps := [out, err];
    }
    if attempt.NeverReady? {
      os.Kill(started);
      os.AbortAll(pumps);
      return Err(attempt.error), pid;
    }
    os.Emit(DriverReady(attempt.port));
    var process := new ManagedDriverProcess(os, attempt.port, started, pumps);
    r := Ok(process);
  }

  ghost predicate Holds(p: ManagedDriverProcess, os: OperatingSystem, port: Port, tracing: bool)
    reads p, p.os
  {
    p.os == os && p.port == port && p.child.Some? && p.Owns() && !p.shutdown
    && |p.pumpHandles| == if tracing then 2 else 0
  }

  /** What a spawn announces, given the child of each attempt made. */
  function SpawnEvents(outcome: nat -> Attempt, pids: seq<Pid>): seq<Event> {
    if pids == [] then []
    else SpawnEvents(outcome, pids[..|pids| - 1]) + AttemptEvents(outcome(|pids| - 1), pids[|pids| - 1])
  }

  /** The retry loop: the settling attempt decides, and only a returned process is left behind. */
  method SpawnProcess(os: OperatingSystem, tracing: bool, outcome: nat -> Attempt)
    returns (r: Result<ManagedDriverProcess>, ghost used: nat, ghost pids: seq<Pid>)
    requires os.Valid()
    modifies os
    ensures os.Valid() && Settles(outcome, used)
    ensures r.Ok? == outcome(used).Ready? && (r.Err? ==> r.error == outcome(used).error)
    ensures r.Err? ==> os.running == old(os.running) && os.pumping == old(os.pumping)
    ensures r.Ok? ==> fresh(r.value) && Holds(r.value, os, outcome(used).port, tracing)
                      && r.value.child.value !in old(os.running)
                      && os.running == old(os.running) + r.value.Children()
                      && os.pumping == old(os.pumping) + r.value.Pumps() && r.value.Pumps() !! old(os.pumping)
    ensures |pids| == used + 1 && (r.Ok? ==> r.value.child == Some(pids[used]))
    ensures os.events == old(os.events) + SpawnEvents(outcome, pids)
  {
    hide IsPortInUse, SpawnEvents;
    pids := [];
    NoEvents(outcome);
    var lastErr: Option<ManagerError> := None;
    for attempt := 0 to MAX_PORT_ATTEMPTS
      invariant os.Valid() && os.running == old(os.running) && os.pumping == old(os.pumping)
      invariant forall i: nat | i < attempt :: Retryable(outcome(i))
      invariant attempt == 0 <==> lastErr == None
      invariant attempt > 0 ==> lastErr == Some(outcome(attempt - 1).error)
      invariant |pids| == attempt && os.events == old(os.events) + SpawnEvents(outcome, pids)
    {
      used := attempt;
      ghost var pid := 0;
      if outcome(attempt).NoPort? {
        pids := Snoc(outcome, pids, pid);
        return Err(outcome(attempt).error), used, pids;
      }
      r, pid := SpawnAtPort(os, tracing, outcome(attempt));
      pids := Snoc(outcome, pids, pid);
      if r.Ok? || !IsPortInUse(r.error) {
        return;
      }
      lastErr := Some(r.error);
    }
    r, used := Err(lastErr.value), MAX_PORT_ATTEMPTS - 1;
  }

  lemma NoEvents(outcome: nat -> Attempt)
    ensures SpawnEvents(outcome, []) == []
  {
  }

  lemma Snoc(outcome: nat -> Attempt, pids: seq<Pid>, pid: Pid) returns (r: seq<Pid>)
    ensures r == pids + [pid]
    ensures SpawnEvents(outcome, r) == SpawnEvents(outcome, pids) + AttemptEvents(outcome(|pids|), pid)
  {
    r := pids + [pid];
    assert r[..|pids|] == pids;
  }

  function Count(events: seq<Event>, kind: Event -> bool): nat {
    if events == [] then 0
    else Count(events[..|events| - 1], kind) + if kind(events[|events| - 1]) then 1 else 0
  }

  lemma {:induction false} CountAppend(a: seq<Event>, b: seq<Event>, kind: Event -> bool)
    ensures Count(a + b, kind) == Count(a, kind) + Count(b, kind)
  {
    if b == [] {
      assert a + b == a;
    } else {
      assert (a + b)[..|a + b| - 1] == a + b[..|b| - 1];
      CountAppend(a, b[..|b| - 1], kind);
    }
  }

  function IsReady(): Event -> bool {
    (e: Event) => e.DriverReady?
  }

  function IsShutdown(): Event -> bool {
    (e: Event) => e.DriverShutdown?
  }

  lemma AttemptCounts(a: Attempt, pid: Pid)
    ensures Count(AttemptEvents(a, pid), IsReady()) == if a.Ready? then 1 else 0
    ensures Count(AttemptEvents(a, pid), IsShutdown()) == 0
  {
    if a.Ready? {
      CountAppend([DriverProcessSpawned(pid, a.port)], [DriverReady(a.port)], IsReady());
      CountAppend([DriverProcessSpawned(pid, a.port)], [DriverReady(a.port)], IsShutdown());
      assert AttemptEvents(a, pid) == [DriverProcessSpawned(pid, a.port)] + [DriverReady(a.port)];
    }
  }

  lemma {:induction false} SpawnCounts(outcome: nat -> Attempt, pids: seq<Pid>)
    requires forall i: nat | i + 1 < |pids| :: Retryable(outcome(i))
    ensures Count(SpawnEvents(outcome, pids), IsReady()) ==
            if pids != [] && outcome(|pids| - 1).Ready? then 1 else 0
    ensures Count(SpawnEvents(outcome, pids), IsShutdown()) == 0
  {
    if pids != [] {
      var n := |pids| - 1;
      assert n > 0 ==> Retryable(outcome(n - 1));
      SpawnCounts(outcome, pids[..n]);
      CountAppend(SpawnEvents(outcome, pids[..n]), AttemptEvents(outcome(n), pids[n]), IsReady());
      CountAppend(SpawnEvents(outcome, pids[..n]), AttemptEvents(outcome(n), pids[n]), IsShutdown());
      AttemptCounts(outcome(n), pids[n]);
    }
  }

  /** Over the whole life of a spawn and, if it returned a process, that process's end: one readiness
      and one shutdown if the settling attempt got ready, else neither. A child that is killed because
      it never got ready has no shutdown event. */
  lemma ReadyOnceShutdownOnce(outcome: nat -> Attempt, used: nat, pids: seq<Pid>)
    requires Settles(outcome, used) && |pids| == used + 1
    ensures var last := outcome(used);
            var life := SpawnEvents(outcome, pids) + if last.Ready? then [DriverShutdown(last.port)] else [];
            var n := if last.Ready? then 1 else 0;
            Count(life, IsReady()) == n && Count(life, IsShutdown()) == n
  {
    var end := if outcome(used).Ready? then [DriverShutdown(outcome(used).port)] else [];
    SpawnCounts(outcome, pids);
    CountAppend(SpawnEvents(outcome, pids), end, IsReady());
    CountAppend(SpawnEvents(outcome, pids), end, IsShutdown());
    assert end == [] || end[..0] == [];
  }

  /** A driver's life: a spawn and, if it returned a process, `shutdown` or the destructor. It announces readiness once
      and the end once, or neither, and leaves no child and no pump behind. */
  method SpawnAndEnd(os: OperatingSystem, tracing: bool, outcome: nat -> Attempt, shutdown: bool, killed: bool)
    returns (spawned: bool, ghost used: nat)
    requires os.Valid()
    modifies os
    ensures os.Valid() && Settles(outcome, used) && spawned == outcome(used).Ready?
    ensures Count(os.events, IsReady()) == Count(old(os.events), IsReady()) + if spawned then 1 else 0
    ensures Count(os.events, IsShutdown()) == Count(old(os.events), IsShutdown()) + if spawned then 1 else 0
    ensures os.running == old(os.running) && os.pumping == old(os.pumping)
  {
    hide Settles, SpawnEvents, Count;
    var r, u, pids := SpawnProcess(os, tracing, outcome);
    spawned, used := r.Ok?, u;
    if spawned {
      if shutdown {
        var ok := r.value.Shutdown(killed);
      } else {
        r.value.Drop();
      }
    }
    ghost var life := SpawnEvents(outcome, pids) + if spawned then [DriverShutdown(outcome(used).port)] else [];
    assert os.events == old(os.events) + life;
    CountAppend(old(os.events), life, IsReady());
    CountAppend(old(os.events), life, IsShutdown());
    ReadyOnceShutdownOnce(outcome, used, pids);
  }
}
