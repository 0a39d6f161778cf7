/** The init process's service table and its limit on respawns. */
module Automan {
  import opened Basics

  const RATE: nat := 5            // respawns
  const WINDOW: nat := 30000      // milliseconds
  const MAX_SERVICES: nat := 64

  datatype State = Stopped | Starting | Running | Crashed | Done | Dead

  datatype Flags = Flags(respawn: bool, critical: bool, oneshot: bool)

  type Ring = r: seq<nat> | |r| == 5 witness [0, 0, 0, 0, 0]

  /** A service; its path and the numbers that are only printed are not shown. */
  datatype Service = Service(flags: Flags, state: State, pid: nat, ring: Ring, idx: nat)

  // ---------------------------------------------------------------- what the ring says

  /** The times of all respawns of a registration are in order, not zero and not later than `now`. */
  ghost predicate InOrder(log: seq<nat>, now: nat) {
    && (forall k | 0 <= k < |log| :: 0 < log[k] <= now)
    && (forall j, k | 0 <= j < k < |log| :: log[j] <= log[k])
  }

  /** The ring holds the last five times, each at its number modulo five, and zeros before there were five. */
  ghost predicate Remembers(ring: Ring, idx: nat, log: seq<nat>) {
    && idx == |log|
    && (forall m {:trigger log[m]} | 0 <= m < |log| && |log| <= m + RATE :: ring[m % RATE] == log[m])
    && (forall k | |log| <= k < RATE :: ring[k] == 0)
  }

  /** The six respawns from number `k` on take at least the window. */
  ghost predicate SixApart(log: seq<nat>, k: nat) {
    k + RATE < |log| ==> log[k + RATE] - log[k] >= WINDOW
  }

  /** Any six respawns in a row take at least the window. */
  ghost predicate Spaced(log: seq<nat>) {
    forall k: nat :: SixApart(log, k)
  }

  /** The last five respawns are all within the window before `now`. */
  ghost predicate Looping(log: seq<nat>, now: nat) {
    |log| >= RATE && forall k | |log| - RATE <= k < |log| :: now - log[k] < WINDOW
  }

  /** Five recent times in the ring: the last five respawns were recent. */
  lemma AllRecent(ring: Ring, idx: nat, log: seq<nat>, now: nat)
    requires Remembers(ring, idx, log) && InOrder(log, now)
    ensures (forall k | 0 <= k < RATE :: ring[k] != 0 && now - ring[k] < WINDOW) <==> Looping(log, now)
  {
    if |log| >= RATE {
      forall k | 0 <= k < RATE
        ensures exists m {:trigger log[m]} :: |log| - RATE <= m < |log| && m % RATE == k && ring[k] == log[m]
      {
        var m := LastAt(|log|, k);
        assert ring[m % RATE] == log[m];
      }
      forall m | |log| - RATE <= m < |log|
        ensures ring[m % RATE] == log[m]
      {
      }
    } else {
      assert ring[|log|] == 0;
    }
  }

  /** The last number below `n` that is `k` modulo five. */
  function LastAt(n: nat, k: nat): (m: nat)
    requires k < RATE <= n
    ensures n - RATE <= m < n && m % RATE == k
  {
    var r := n % RATE;
    if k < r then n - r + k else n - r + k - RATE
  }

  /** Recording one more respawn. */
  lemma Recorded(ring: Ring, idx: nat, log: seq<nat>, checked: nat, now: nat)
    requires Remembers(ring, idx, log) && InOrder(log, checked) && Spaced(log) && 0 < checked <= now && !Looping(log, checked)
    ensures Remembers(ring[idx % RATE := now], idx + 1, log + [now]) && InOrder(log + [now], now) && Spaced(log + [now])
  {
    var ring', log' := ring[idx % RATE := now], log + [now];
    forall m | 0 <= m < |log'| && |log'| <= m + RATE
      ensures ring'[m % RATE] == log'[m]
    {
      if m < |log| {
        assert log'[m] == log[m];
        Apart(m, idx);
      }
    }
    forall k | |log'| <= k < RATE
      ensures ring'[k] == 0
    {
      assert idx % RATE == idx;
    }
    forall k: nat
      ensures SixApart(log', k)
    {
      if k + RATE == |log| {
        var j :| |log| - RATE <= j < |log| && checked - log[j] >= WINDOW;
        assert k == j || log[k] <= log[j];
      } else if k + RATE < |log| {
        assert SixApart(log, k);
      }
    }
  }

  lemma Apart(m: nat, n: nat)
    requires m < n < m + RATE
    ensures m % RATE != n % RATE
  {
  }

  /** The last five respawns lie within one window. */
  ghost predicate Crowded(log: seq<nat>) {
    |log| >= RATE && log[|log| - 1] - log[|log| - RATE] < WINDOW
  }

  /** A service is dead only if its respawns came too fast. */
  ghost predicate ServiceOk(s: Service, log: seq<nat>, clock: nat) {
    Remembers(s.ring, s.idx, log) && InOrder(log, clock) && Spaced(log) && (s.state == Dead ==> Crowded(log))
  }

  // ---------------------------------------------------------------- finding a slot

  /** The first service from `k` on with this process id, or the length. */
  function WithPid(services: seq<Service>, pid: nat, k: nat): (i: nat)
    requires k <= |services|
    ensures k <= i <= |services| && (forall j: nat | k <= j < i :: services[j].pid != pid)
    ensures i < |services| ==> services[i].pid == pid
    decreases |services| - k
  {
    if k == |services| || services[k].pid == pid then k else WithPid(services, pid, k + 1)
  }

  predicate Over(s: Service) { (s.state == Dead || s.state == Done) && s.pid == 0 }

  /** The first slot from `k` on whose service is over, or the length. */
  function FreeSlot(services: seq<Service>, k: nat): (i: nat)
    requires k <= |services|
    ensures k <= i <= |services| && (forall j: nat | k <= j < i :: !Over(services[j]))
    ensures i < |services| ==> Over(services[i])
    decreases |services| - k
  {
    if k == |services| || Over(services[k]) then k else FreeSlot(services, k + 1)
  }

  function NewService(flags: Flags): Service { Service(flags, Stopped, 0, [0, 0, 0, 0, 0], 0) }

  /** `s` in slot `i`, which may be just behind the last one. */
  function Put<T>(s: seq<T>, i: nat, v: T): seq<T>
    requires i <= |s|
  {
    if i < |s| then s[i := v] else s + [v]
  }

  function Launched(s: Service, child: Option<nat>): Service {
    if child.Some? then s.(pid := child.value, state := Running) else s.(state := Crashed)
  }

  // ---------------------------------------------------------------- the table

  class Table {
    var services: seq<Service>
    ghost var logs: seq<seq<nat>>    // the respawns of each registration
    ghost var clock: nat             // the latest time seen

    ghost predicate Valid()
      reads this
    {
      && |logs| == |services| <= MAX_SERVICES
      && (forall i: nat {:trigger services[i]} {:trigger logs[i]} | i < |services| :: ServiceOk(services[i], logs[i], clock))
    }

    constructor ()
      ensures Valid() && services == [] && clock == 0
    {
      services, logs, clock := [], [], 0;
    }

    /** The slot of a new service: the first whose service is over, or a new one. */
    method Register(flags: Flags) returns (slot: Option<nat>)
      requires Valid()
      modifies this`services, this`logs
      ensures Valid()
      ensures slot == if |old(services)| >= MAX_SERVICES then None else Some(FreeSlot(old(services), 0))
      ensures slot.None? ==> services == old(services) && logs == old(logs)
      ensures slot.Some? ==> services == Put(old(services), slot.value, NewService(flags)) && logs == Put(old(logs), slot.value, [])
      ensures slot.Some? ==>
                var s := services[slot.value];
                s.flags == flags && s.state == Stopped && s.pid == 0 && s.ring == [0, 0, 0, 0, 0] && s.idx == 0
    {
      if |services| >= MAX_SERVICES { return None; }
      var fresh' := NewService(flags);
      var i := 0;
      while i < |services|
        modifies {}
        invariant 0 <= i <= |services| && FreeSlot(services, 0) == FreeSlot(services, i)
      {
        var s := services[i];
        if (s.state == Dead || s.state == Done) && s.pid == 0 { break; }
        i := i + 1;
      }
      if i < |services| {
        services, logs := services[i := fresh'], logs[i := []];
      } else {
        services, logs := services + [fresh'], logs + [[]];
      }
      slot := Some(i);
    }

    /** Whether five respawns of service `i` are all recent. */
    method RateExceeded(i: nat, now: nat) returns (exceeded: bool)
      requires Valid() && i < |services| && clock <= now
      ensures exceeded <==> Looping(logs[i], now)
    {
      assert ServiceOk(services[i], logs[i], clock);
      var ring := services[i].ring;
      var recent, k := 0, 0;
      while k < RATE
        invariant 0 <= k <= RATE && recent <= k
        invariant recent == k <==> forall j | 0 <= j < k :: ring[j] != 0 && now - ring[j] < WINDOW
      {
        if ring[k] != 0 && now - ring[k] < WINDOW { recent := recent + 1; }
        k := k + 1;
      }
      AllRecent(ring, services[i].idx, logs[i], now);
      exceeded := recent >= RATE;
    }

    /** The first service with this process id. */
    method FindByPid(pid: nat) returns (r: Option<nat>)
      ensures var i := WithPid(services, pid, 0); r == if i < |services| then Some(i) else None
    {
      var i := 0;
      while i < |services|
        invariant 0 <= i <= |services| && WithPid(services, pid, 0) == WithPid(services, pid, i)
      {
        if services[i].pid == pid { return Some(i); }
        i := i + 1;
      }
      r := None;
    }

    /** Starts a process for service `i`; `child` is what fork gave, None when it failed. */
    method Launch(i: nat, child: Option<nat>)
      requires Valid() && i < |services|
      modifies this`services
      ensures Valid() && services == old(services)[i := Launched(old(services)[i], child)]
    {
      var s := services[i].(state := Starting);
      if child.None? {
        s := s.(state := Crashed);
      } else {
        s := s.(pid := child.value, state := Running);
      }
      services := services[i := s];
    }

    /** Puts a time into the ring. */
    method RecordRespawn(i: nat, ghost checked: nat, now: nat)
      requires Valid() && i < |services| && clock <= checked <= now && 0 < checked && !Looping(logs[i], checked)
      requires services[i].state != Dead
      modifies this
      ensures Valid() && clock == now && logs == old(logs)[i := old(logs)[i] + [now]]
      ensures services == old(services)[i := old(services)[i].(
                ring := old(services)[i].ring[old(services)[i].idx % RATE := now], idx := old(services)[i].idx + 1)]
    {
      var s := services[i];
      assert ServiceOk(s, logs[i], clock);
      Later(logs[i], clock, checked);
      Recorded(s.ring, s.idx, logs[i], checked, now);
      services := services[i := s.(ring := s.ring[s.idx % RATE := now], idx := s.idx + 1)];
      logs := logs[i := logs[i] + [now]];
      AllLater(old(services), old(logs), clock, now);
      clock := now;
    }

    /**
     A child has exited. `checked` and `now` are the clock when the rate is checked and when the respawn is recorded;
     `child` is what fork gives. Says whether the system halts for a critical service.
     */
    method HandleExit(pid: nat, status: int, checked: nat, now: nat, child: Option<nat>) returns (halted: bool)
      requires Valid() && clock <= checked <= now && 0 < checked
      modifies this
      ensures Valid() && clock <= now
      ensures Ended(old(services), old(logs), pid, status, checked, now, child, services, logs)
      ensures var i := WithPid(old(services), pid, 0);
              halted <==> i < |old(services)| && i < |services| && services[i].state == Dead && services[i].flags.critical
                          && old(services)[i].flags.respawn && !old(services)[i].flags.oneshot
    {
      halted := false;
      var found := FindByPid(pid);
      if found.None? { return; }
      halted := Down(found.value, status, checked, now, child);
    }

    /** The process of service `i` has exited. */
    method Down(i: nat, status: int, checked: nat, now: nat, child: Option<nat>) returns (halted: bool)
      requires Valid() && i < |services| && clock <= checked <= now && 0 < checked
      modifies this
      ensures Valid() && clock <= now && i < |services|
      ensures services == old(services)[i := services[i]] && logs == old(logs)[i := logs[i]]
      ensures Exited(old(services)[i], old(logs)[i], status, checked, now, child, services[i], logs[i])
      ensures halted <==> services[i].state == Dead && services[i].flags.critical
                          && old(services)[i].flags.respawn && !old(services)[i].flags.oneshot
    {
      halted := false;
      var s := services[i].(pid := 0);
      assert ServiceOk(services[i], logs[i], clock);
      if s.flags.oneshot {
        services := services[i := s.(state := if status == 0 then Done else Crashed)];
        return;
      }
      if !s.flags.respawn {
        services := services[i := s.(state := Crashed)];
        return;
      }
      services := services[i := s.(state := Crashed)];
      var exceeded := RateExceeded(i, checked);
      if exceeded {
        assert Crowded(logs[i]);
        services := services[i := s.(state := Dead)];
        halted := s.flags.critical;
        return;
      }
      RecordRespawn(i, checked, now);
      Launch(i, child);
    }
  }

  /** Only the service whose process exited changes. */
  ghost predicate Ended(ss: seq<Service>, logs: seq<seq<nat>>, pid: nat, status: int, checked: nat, now: nat, child: Option<nat>,
                        ss': seq<Service>, logs': seq<seq<nat>>) {
    var i := WithPid(ss, pid, 0);
    if i >= |ss| || i >= |logs| then ss' == ss && logs' == logs
    else
      && i < |ss'| && i < |logs'| && ss' == ss[i := ss'[i]] && logs' == logs[i := logs'[i]]
      && Exited(ss[i], logs[i], status, checked, now, child, ss'[i], logs'[i])
  }

  /** What an exit makes of a service and its history. */
  ghost predicate Exited(s: Service, log: seq<nat>, status: int, checked: nat, now: nat, child: Option<nat>, s': Service, log': seq<nat>) {
    if s.flags.oneshot then
      log' == log && s' == s.(pid := 0, state := if status == 0 then Done else Crashed)
    else if !s.flags.respawn then
      log' == log && s' == s.(pid := 0, state := Crashed)
    else if Looping(log, checked) then
      log' == log && s' == s.(pid := 0, state := Dead)
    else
      && log' == log + [now]
      && s'.state == (if child.Some? then Running else Crashed) && s'.pid == (if child.Some? then child.value else 0)
      && s'.flags == s.flags
  }

  lemma Later(log: seq<nat>, clock: nat, now: nat)
    requires InOrder(log, clock) && clock <= now
    ensures InOrder(log, now)
  {
  }

  lemma AllLater(services: seq<Service>, logs: seq<seq<nat>>, clock: nat, now: nat)
    requires |logs| == |services| && clock <= now
    requires forall i: nat | i < |services| :: ServiceOk(services[i], logs[i], clock)
    ensures forall i: nat | i < |services| :: ServiceOk(services[i], logs[i], now)
  {
    forall i: nat | i < |services|
      ensures ServiceOk(services[i], logs[i], now)
    {
      Later(logs[i], clock, now);
    }
  }

  // ---------------------------------------------------------------- any run

  /** A service is started, or a child has exited. */
  datatype Event =
    | Start(flags: Flags, child: Option<nat>)
    | Exit(pid: nat, status: int, checked: nat, now: nat, child: Option<nat>)

  /** From event `k` on, the clock is not zero and does not go back behind `last`. */
  ghost predicate Ticking(events: seq<Event>, k: nat, last: nat)
    requires k <= |events|
    decreases |events| - k
  {
    k == |events| ||
    match events[k]
    case Start(_, _) => Ticking(events, k + 1, last)
    case Exit(_, _, checked, now, _) => 0 < checked && last <= checked <= now && Ticking(events, k + 1, now)
  }

  /** The table at one moment. */
  datatype Snapshot = Snapshot(services: seq<Service>, logs: seq<seq<nat>>)

  /** What one event makes of the table. */
  ghost predicate Happened(a: Snapshot, e: Event, b: Snapshot) {
    match e
    case Start(flags, child) =>
      if |a.services| >= MAX_SERVICES || |a.logs| != |a.services| then b == a
      else
        var i := FreeSlot(a.services, 0);
        b == Snapshot(Put(a.services, i, Launched(NewService(flags), child)), Put(a.logs, i, []))
    case Exit(pid, status, checked, now, child) =>
      Ended(a.services, a.logs, pid, status, checked, now, child, b.services, b.logs)
  }

  /** Every ring holds the last five times, every six respawns are far enough apart, and only fast respawns made a service dead. */
  ghost predicate Good(a: Snapshot) {
    && |a.logs| == |a.services| <= MAX_SERVICES
    && forall i: nat {:trigger a.services[i]} {:trigger a.logs[i]} | i < |a.services| ::
         && Remembers(a.services[i].ring, a.services[i].idx, a.logs[i]) && Spaced(a.logs[i])
         && (a.services[i].state == Dead ==> Crowded(a.logs[i]))
  }

  /** One event. */
  method Handle(t: Table, e: Event, ghost last: nat) returns (halted: bool)
    requires t.Valid() && t.clock <= last && (e.Exit? ==> 0 < e.checked && last <= e.checked <= e.now)
    modifies t
    ensures t.Valid() && t.clock <= (if e.Exit? then e.now else last)
    ensures Happened(old(Snapshot(t.services, t.logs)), e, Snapshot(t.services, t.logs)) && Good(Snapshot(t.services, t.logs))
  {
    halted := false;
    match e {
      case Start(flags, child) =>
        var slot := t.Register(flags);
        if slot.Some? { t.Launch(slot.value, child); }
      case Exit(pid, status, checked, now, child) =>
        halted := t.HandleExit(pid, status, checked, now, child);
    }
  }

  /** Any run, up to a halt: the tables it passes through are all good, each from the one before by its event. */
  method Run(events: seq<Event>) returns (t: Table, halted: bool, ghost seen: seq<Snapshot>)
    requires Ticking(events, 0, 0)
    ensures 0 < |seen| <= |events| + 1 && (halted || |seen| == |events| + 1)
    ensures seen[0] == Snapshot([], []) && seen[|seen| - 1] == Snapshot(t.services, t.logs)
    ensures forall k | 0 <= k < |seen| :: Good(seen[k])
    ensures forall k | 0 < k < |seen| :: Happened(seen[k - 1], events[k - 1], seen[k])
  {
    t := new Table();
    halted := false;
    var k := 0;
    ghost var last := 0;
    seen := [Snapshot([], [])];
    while k < |events|
      invariant 0 <= k <= |events| && fresh(t) && t.Valid() && t.clock <= last && Ticking(events, k, last)
      invariant |seen| == k + 1 && seen[0] == Snapshot([], []) && seen[k] == Snapshot(t.services, t.logs)
      invariant forall m | 0 <= m < |seen| :: Good(seen[m])
      invariant forall m | 0 < m < |seen| :: Happened(seen[m - 1], events[m - 1], seen[m])
    {
      halted := Handle(t, events[k], last);
      seen := seen + [Snapshot(t.services, t.logs)];
      if events[k].Exit? { last := events[k].now; }
      k := k + 1;
      if halted { return; }
    }
  }

  // ---------------------------------------------------------------- a full table

  const ONCE := Flags(false, false, true)

  /** As many services as there is room for, each run once, with the process ids 1, 2, 3 and so on. */
  method StartAll() returns (t: Table)
    ensures fresh(t) && t.Valid() && t.clock == 0 && |t.services| == MAX_SERVICES
    ensures forall i: nat | i < MAX_SERVICES :: t.services[i] == Launched(NewService(ONCE), Some(i + 1))
  {
    t := new Table();
    var k := 0;
    while k < MAX_SERVICES
      invariant 0 <= k <= MAX_SERVICES && fresh(t) && t.Valid() && t.clock == 0 && |t.services| == k
      invariant forall i: nat | i < k :: t.services[i] == Launched(NewService(ONCE), Some(i + 1))
    {
      assert FreeSlot(t.services, 0) == k;
      var _ := Handle(t, Start(ONCE, Some(k + 1)), 0);
      k := k + 1;
    }
  }

  /** A slot that could be used again does not help: with the table full, the next service is refused. */
  method FullTable() returns (t: Table, slot: Option<nat>)
    ensures t.Valid() && |t.services| == MAX_SERVICES && FreeSlot(t.services, 0) == 0 && slot.None?
  {
    t := StartAll();
    assert WithPid(t.services, 1, 0) == 0;
    var _ := Handle(t, Exit(1, 0, 1, 1, None), 0);
    assert Over(t.services[0]);
    slot := t.Register(ONCE);
  }
}
