/** The console's frame loop and its interval timer, over any program and any bus traffic. */
module Atari2600 {
  import opened Basics
  import opened Mos6502

  const FRAME: nat := 312 * 76

  /** What a step does to the timer registers. */
  datatype Access = WriteTimer(reg: u8, v: u8) | ReadTimer

  /** One step of the processor: the opcode it finds, and its accesses to the timer. */
  datatype Event = Event(op: u8, accesses: seq<Access>)

  /** When the timer was polled since it was loaded. */
  datatype Polls = Fresh | Poll(before: Polls, at: nat)

  /** What the timer was last loaded with, the interval chosen with it, and when. */
  datatype Load = Load(v: u8, interval: nat, since: nat)

  class Console {
    var cycles: nat
    var frameStart: nat
    var faulted: bool

    var timer: u8
    var intim: u8
    var interval: nat
    var last: nat
    var underflow: bool

    ghost var loaded: u8    // the value last written to the timer
    ghost var since: nat    // and when
    ghost var polls: Polls   // when it was polled from then on

    /** Started, and never long without being polled. */
    ghost predicate Valid()
      reads this
    {
      && (interval == 1 || interval == 8 || interval == 64 || interval == 1024)
      && since <= last <= cycles <= last + interval + 6
      && Regular(polls, since, interval) && last == LastTick(polls, since, interval)
      && Shows(loaded, Ticks(polls, since, interval), timer, underflow)
    }

    ghost function Setting(): Load
      reads this
    {
      Load(loaded, interval, since)
    }

    constructor ()
      ensures Valid() && timer == 255 && Setting() == Load(255, 1024, 0) && cycles == 0 && !faulted
    {
      cycles, frameStart, faulted := 0, 0, false;
      timer, intim, interval, last, underflow := 0xFF, 0, 1024, 0, false;
      loaded, since, polls := 0xFF, 0, Fresh;
    }

    /** Counts down by the intervals that have passed since the last count. */
    method UpdateTimer()
      requires Valid()
      modifies this`timer, this`intim, this`last, this`underflow, this`polls
      ensures Valid() && cycles < last + interval && polls == Poll(old(polls), cycles)
      ensures var ticks := (cycles - old(last)) / interval;
              timer == Max(0, old(timer) - ticks) && underflow == (old(underflow) || ticks >= Max(1, old(timer)))
      ensures last == if cycles - old(last) >= interval then cycles else old(last)
      ensures intim == timer
    {
      if interval == 0 { return; }
      var elapsed := cycles - last;
      var ticks := elapsed / interval;
      PassedIs(elapsed, interval);
      CountDown(ticks);
    }

    /** Takes `ticks` off the timer. */
    method CountDown(ticks: nat)
      requires Valid() && ticks == Passed(cycles - last, interval)
      modifies this`timer, this`intim, this`last, this`underflow, this`polls
      ensures Valid() && cycles < last + interval && polls == Poll(old(polls), cycles)
      ensures timer == Max(0, old(timer) - ticks) && intim == timer
      ensures underflow == (old(underflow) || ticks >= Max(1, old(timer)))
      ensures last == if cycles - old(last) >= interval then cycles else old(last)
    {
      Polled(polls, since, interval, cycles, loaded, timer, underflow);
      if ticks > 0 {
        last := cycles;
        if ticks >= timer {
          timer := 0;
          underflow := true;
        } else {
          timer := timer - ticks;
        }
      }
      intim := timer;
      polls := Poll(polls, cycles);
    }

    /** The timer never counts faster than its interval, and at most six cycles per count slower while it runs. */
    lemma Rate()
      requires Valid()
      ensures interval * (loaded - timer) <= last - since <= cycles - since
      ensures timer > 0 ==> last - since <= (interval + 6) * (loaded - timer)
      ensures timer > 0 && cycles < last + interval ==> cycles - since < (interval + 6) * (loaded - timer) + interval
    {
      TicksRate(polls, since, interval);
      if timer == 0 {
        assert interval * loaded <= interval * Ticks(polls, since, interval);
      }
    }

    /** Registers 0x14 to 0x17 load the timer and choose its interval. */
    method Write(reg: u8, v: u8)
      requires Valid()
      modifies this`timer, this`interval, this`last, this`underflow, this`loaded, this`since, this`polls
      ensures Valid()
      ensures 0x14 <= reg <= 0x17 ==>
                && timer == v && last == cycles && !underflow && loaded == v && since == cycles && polls == Fresh
                && interval == IntervalOf(reg)
      ensures !(0x14 <= reg <= 0x17) ==> unchanged(this)
    {
      if 0x14 <= reg <= 0x17 {
        timer, last, underflow := v, cycles, false;
        interval := if reg == 0x14 then 1 else if reg == 0x15 then 8 else if reg == 0x16 then 64 else 1024;
        loaded, since, polls := v, cycles, Fresh;
      }
    }

    /** The accesses of one step, all at the same cycle. */
    method Serve(accesses: seq<Access>)
      requires Valid() && cycles < last + interval
      modifies this`timer, this`intim, this`interval, this`last, this`underflow, this`loaded, this`since, this`polls
      ensures Valid() && cycles < last + interval
      ensures Setting() == Reloaded(old(Setting()), accesses, cycles)
    {
      var k := 0;
      while k < |accesses|
        invariant 0 <= k <= |accesses| && Valid() && cycles < last + interval
        invariant Setting() == Reloaded(old(Setting()), accesses[..k], cycles)
      {
        assert accesses[..k + 1][..k] == accesses[..k];
        match accesses[k] {
          case WriteTimer(reg, v) => Write(reg, v);
          case ReadTimer => UpdateTimer();
        }
        k := k + 1;
      }
      assert accesses[..k] == accesses;
    }

    /** Polls the timer and lets the processor make one step; says how many cycles that takes. */
    method Step(e: Event) returns (cyc: nat)
      requires Valid()
      modifies this`timer, this`intim, this`interval, this`last, this`underflow, this`loaded, this`since, this`polls
      ensures Valid() && cycles < last + interval
      ensures 2 <= cyc <= 7 && cyc == Price(e)
      ensures Setting() == Reloaded(old(Setting()), e.accesses, cycles)
    {
      UpdateTimer();
      Serve(e.accesses);
      cyc := Price(e);
    }

    /** Runs the processor for one frame; `run` is what it does. */
    method StepFrame(script: nat -> Event) returns (ghost run: Run)
      requires Valid()
      modifies this
      ensures Valid() && faulted == old(faulted) && frameStart == old(cycles)
      ensures Plays(run, script) && Start(run) == old(cycles) && cycles == Now(run)
      ensures run.Stepped? && Now(run.before) < old(cycles) + 23712 <= cycles <= old(cycles) + 23718
      ensures Setting() == SettingAfter(old(Setting()), run)
    {
      frameStart := cycles;
      var target := cycles + FRAME;
      var k, fault := 0, false;
      run := Begin(cycles);
      while cycles < target
        invariant Valid() && faulted == old(faulted) && frameStart == old(cycles)
        invariant old(cycles) <= cycles <= target + 6 && !fault
        invariant Plays(run, script) && Start(run) == old(cycles) && cycles == Now(run) && k == Steps(run)
        invariant run.Begin? || Now(run.before) < target
        invariant Setting() == SettingAfter(old(Setting()), run)
        decreases target - cycles
      {
        var cyc := Step(script(k));
        if cyc == 0 {
          fault := true;
          break;
        }
        cycles := cycles + cyc;
        run := Stepped(run, script(k));
        k := k + 1;
      }
      faulted := faulted || fault;
    }
  }

  /** The cycle at which a run begins, and its steps. */
  datatype Run = Begin(at: nat) | Stepped(before: Run, e: Event)

  function Start(r: Run): nat { if r.Begin? then r.at else Start(r.before) }

  function Steps(r: Run): nat { if r.Begin? then 0 else Steps(r.before) + 1 }

  function Price(e: Event): nat { Cycles(Decode(e.op)) }

  /** Each step takes the cycles of its opcode. */
  function Now(r: Run): nat { if r.Begin? then r.at else Now(r.before) + Price(r.e) }

  /** The run makes the steps of the script, in order. */
  predicate Plays(r: Run, script: nat -> Event) {
    r.Stepped? ==> r.e == script(Steps(r.before)) && Plays(r.before, script)
  }

  /** One, 8, 64 or 1024 cycles. */
  ghost function IntervalOf(reg: u8): (n: nat)
    ensures reg == 0x14 ==> n == 1
    ensures reg == 0x15 ==> n == 8
    ensures reg == 0x16 ==> n == 64
    ensures reg == 0x17 ==> n == 1024
  {
    [1, 8, 64, 1024][reg % 4]
  }

  /** The last write to a timer register decides. */
  ghost function Reloaded(l: Load, accesses: seq<Access>, now: nat): Load {
    if accesses == [] then l else
    var before := Reloaded(l, accesses[..|accesses| - 1], now);
    match accesses[|accesses| - 1]
    case WriteTimer(reg, v) => if 0x14 <= reg <= 0x17 then Load(v, IntervalOf(reg), now) else before
    case ReadTimer => before
  }

  ghost function SettingAfter(l: Load, r: Run): Load {
    if r.Begin? then l else Reloaded(SettingAfter(l, r.before), r.e.accesses, Now(r.before))
  }

  /** What the timer shows when so many whole intervals have been counted: the rest, or 0 with underflow. */
  ghost predicate Shows(loaded: int, ticks: nat, timer: int, underflow: bool) {
    && timer == Max(0, loaded - ticks)
    && (underflow <==> ticks >= Max(1, loaded))
  }

  lemma ShowsLess(loaded: u8, ticks: nat, timer: u8, underflow: bool, more: nat)
    requires Shows(loaded, ticks, timer, underflow)
    ensures Shows(loaded, ticks + more, Max(0, timer - more), underflow || more >= Max(1, timer))
  {
  }

  /** How many whole intervals the polls have counted since the timer was loaded. */
  ghost function Ticks(polls: Polls, since: nat, interval: nat): nat
    requires interval > 0
  {
    match polls
    case Fresh => 0
    case Poll(before, at) => Ticks(before, since, interval) + Passed(at - LastTick(before, since, interval), interval)
  }

  /** The cycle of the last poll that counted, or of the load. */
  ghost function LastTick(polls: Polls, since: nat, interval: nat): nat
    requires interval > 0
  {
    match polls
    case Fresh => since
    case Poll(before, at) =>
      var last := LastTick(before, since, interval);
      if at < last + interval then last else at
  }

  /** The whole intervals in so many cycles. */
  function Passed(elapsed: int, interval: nat): nat
    requires interval > 0
    decreases elapsed
  {
    if elapsed < interval then 0 else 1 + Passed(elapsed - interval, interval)
  }

  lemma {:induction false} PassedMeans(elapsed: nat, interval: nat)
    requires interval > 0
    ensures interval * Passed(elapsed, interval) <= elapsed < interval * Passed(elapsed, interval) + interval
    decreases elapsed
  {
    if elapsed >= interval {
      PassedMeans(elapsed - interval, interval);
      var k := Passed(elapsed - interval, interval);
      assert interval * (1 + k) == interval + interval * k;
    }
  }

  lemma PassedIs(elapsed: nat, interval: nat)
    requires interval > 0
    ensures Passed(elapsed, interval) == elapsed / interval
  {
    PassedMeans(elapsed, interval);
    QuotientIs(elapsed, interval, Passed(elapsed, interval));
  }

  lemma QuotientIs(n: nat, d: nat, q: nat)
    requires d > 0 && d * q <= n < d * q + d
    ensures q == n / d
  {
    var e := n / d;
    assert d * e <= n < d * e + d;
    assert q < e ==> d * (q + 1) <= d * e;
    assert e < q ==> d * (e + 1) <= d * q;
  }

  /** What one more poll, which finds `ticks` whole intervals, makes of the timer. */
  ghost predicate Counted(polls: Polls, since: nat, interval: nat, now: nat, loaded: u8, timer: u8, underflow: bool, ticks: nat)
    requires interval > 0
  {
    var p, last := Poll(polls, now), LastTick(polls, since, interval);
    && Regular(p, since, interval)
    && (ticks > 0 <==> now >= last + interval)
    && LastTick(p, since, interval) == (if ticks > 0 then now else last)
    && Shows(loaded, Ticks(p, since, interval), Max(0, timer - ticks), underflow || ticks >= Max(1, timer))
  }

  lemma Polled(polls: Polls, since: nat, interval: nat, now: nat, loaded: u8, timer: u8, underflow: bool)
    requires interval > 0 && Regular(polls, since, interval)
    requires var last := LastTick(polls, since, interval); last <= now <= last + interval + 6
    requires Shows(loaded, Ticks(polls, since, interval), timer, underflow)
    ensures Counted(polls, since, interval, now, loaded, timer, underflow, Passed(now - LastTick(polls, since, interval), interval))
  {
    var ticks := Passed(now - LastTick(polls, since, interval), interval);
    ShowsLess(loaded, Ticks(polls, since, interval), timer, underflow, ticks);
  }

  /** The polls are in order, from `since` to `now`. */
  predicate Ordered(polls: Polls, since: nat, now: nat) {
    match polls
    case Fresh => since <= now
    case Poll(before, at) => at <= now && Ordered(before, since, at)
  }

  /** Loaded through register 0x14 the timer counts every cycle, however it is polled. */
  lemma {:induction false} EveryCycle(polls: Polls, since: nat, now: nat)
    requires Ordered(polls, since, now)
    ensures since <= LastTick(polls, since, 1) <= now
    ensures Ticks(Poll(polls, now), since, 1) == now - since && LastTick(Poll(polls, now), since, 1) == now
  {
    if polls.Poll? {
      EveryCycle(polls.before, since, polls.at);
    }
    PassedIs(now - LastTick(polls, since, 1), 1);
  }

  /** Each poll comes within an interval and six cycles of the last count. */
  ghost predicate Regular(polls: Polls, since: nat, interval: nat)
    requires interval > 0
  {
    match polls
    case Fresh => true
    case Poll(before, at) =>
      var last := LastTick(before, since, interval);
      Regular(before, since, interval) && last <= at <= last + interval + 6
  }

  /** A count takes an interval at least, and six cycles more at most. */
  lemma {:induction false} TicksRate(polls: Polls, since: nat, interval: nat)
    requires interval > 0 && Regular(polls, since, interval)
    ensures var span := LastTick(polls, since, interval) - since;
            interval * Ticks(polls, since, interval) <= span <= (interval + 6) * Ticks(polls, since, interval)
  {
    if polls.Poll? {
      TicksRate(polls.before, since, interval);
      TickRate(Ticks(polls.before, since, interval), polls.at - LastTick(polls.before, since, interval), interval);
    }
  }

  lemma TickRate(ticks: nat, elapsed: nat, interval: nat)
    requires 0 < interval && elapsed <= interval + 6
    ensures var k := Passed(elapsed, interval);
            && (elapsed < interval ==> k == 0)
            && (elapsed >= interval ==> interval * (ticks + k) <= interval * ticks + elapsed)
            && (elapsed >= interval ==> (interval + 6) * ticks + elapsed <= (interval + 6) * (ticks + k))
  {
    var k := Passed(elapsed, interval);
    PassedMeans(elapsed, interval);
    Spread(interval, ticks, k);
    Spread(interval + 6, ticks, k);
    if elapsed >= interval {
      Grows(interval + 6, 1, k);
    }
  }

  lemma Spread(a: nat, x: nat, y: nat)
    ensures a * (x + y) == a * x + a * y
  {
  }

  lemma Grows(a: nat, x: nat, y: nat)
    requires x <= y
    ensures a * x <= a * y
  {
  }
}
