/** Deadlines, the monotonic clock and AOS_TaskDelay. */
module Time {
  import opened Common

  const NS_PER_S: int := 1_000_000_000
  const NS_PER_MS: int := 1_000_000

  datatype Timespec = Timespec(sec: int, nsec: int)

  predicate Normal(ts: Timespec) { 0 <= ts.nsec < NS_PER_S }

  /** The instant in nanoseconds. */
  function Total(ts: Timespec): int { ts.sec * NS_PER_S + ts.nsec }

  /** The deadline of AOS_MutexTimedLock and AOS_SemTimedWait: one sum, then divide. */
  function DivModDeadline(now: Timespec, ms: u32): Timespec
  {
    var additional := (ms % 1000) * NS_PER_MS + now.nsec;
    Timespec(now.sec + ms / 1000 + additional / NS_PER_S, additional % NS_PER_S)
  }

  /** The deadline of AOS_TaskDelay: one conditional carry. */
  function CarryDeadline(now: Timespec, ms: u32): Timespec
  {
    var sec, nsec := now.sec + ms / 1000, now.nsec + (ms % 1000) * NS_PER_MS;
    if nsec >= NS_PER_S then Timespec(sec + 1, nsec - NS_PER_S) else Timespec(sec, nsec)
  }

  /**
   * From every normalised clock reading and for every 32-bit number of milliseconds the two ways
   * agree: the result is normalised and exactly ms later, and the nanosecond sum stays below
   * 2 * 10^9, so one carry is enough and a 32-bit long does not overflow.
   */
  lemma DeadlinesAgree(now: Timespec, ms: u32)
    requires Normal(now)
    ensures DivModDeadline(now, ms) == CarryDeadline(now, ms)
    ensures Normal(CarryDeadline(now, ms))
    ensures Total(CarryDeadline(now, ms)) == Total(now) + ms * NS_PER_MS
    ensures now.nsec + (ms % 1000) * NS_PER_MS <= 1_998_999_999 < 0x7FFF_FFFF
  {
    var additional := now.nsec + (ms % 1000) * NS_PER_MS;
    assert ms == (ms / 1000) * 1000 + ms % 1000;
    if additional >= NS_PER_S {
      assert additional / NS_PER_S == 1 && additional % NS_PER_S == additional - NS_PER_S;
    } else {
      assert additional / NS_PER_S == 0 && additional % NS_PER_S == additional;
    }
  }

  /** AOS_TimeGet's conversion to microseconds. */
  function TimeUs(ts: Timespec): int { ts.sec * 1_000_000 + ts.nsec / 1000 }

  lemma TimeUsIsFloor(ts: Timespec)
    requires Normal(ts)
    ensures TimeUs(ts) * 1000 <= Total(ts) < TimeUs(ts) * 1000 + 1000
  {
  }

  /** AOS_TimeGet never goes backwards when the clock does not. */
  lemma TimeUsIsMonotone(a: Timespec, b: Timespec)
    requires Normal(a) && Normal(b) && Total(a) <= Total(b)
    ensures TimeUs(a) <= TimeUs(b)
  {
    TimeUsIsFloor(a);
    TimeUsIsFloor(b);
  }

  /** Truncation costs nothing: whole milliseconds show in full between two readings. */
  lemma ReadingsShowTheDelay(before: Timespec, start: Timespec, end: Timespec, after: Timespec, ms: u32)
    requires Normal(before) && Normal(start) && Normal(end) && Normal(after)
    requires Total(before) <= Total(start) && Total(start) + ms * NS_PER_MS <= Total(end) <= Total(after)
    ensures TimeUs(after) - TimeUs(before) >= ms * 1000
  {
    TimeUsIsFloor(before);
    TimeUsIsFloor(after);
  }

  /** How one clock_nanosleep call returns, and the clock when it does. */
  datatype SleepResult = Slept | Interrupted | Invalid

  datatype Wake = Wake(rc: SleepResult, clock: Timespec)

  /** The clock when the k-th call is made. */
  function ClockBefore(start: Timespec, wakes: seq<Wake>, k: nat): Timespec
    requires k <= |wakes|
  {
    if k == 0 then start else wakes[k - 1].clock
  }

  /**
   * What POSIX says of clock_nanosleep with TIMER_ABSTIME on a monotonic clock, with the deadline in
   * nanoseconds: it returns 0 only once the deadline is reached, and is interrupted only if the
   * deadline was still ahead.
   */
  predicate WakeAllowed(deadline: int, before: Timespec, wake: Wake)
  {
    && Normal(wake.clock) && Total(before) <= Total(wake.clock)
    && (wake.rc == Slept ==> deadline <= Total(wake.clock))
    && (wake.rc == Interrupted ==> Total(before) < deadline)
  }

  ghost predicate ClockKeepsPromise(start: Timespec, deadline: int, wakes: seq<Wake>)
  {
    forall k :: 0 <= k < |wakes| ==> WakeAllowed(deadline, ClockBefore(start, wakes, k), wakes[k])
  }

  /** One clock_nanosleep call with the deadline it is handed. */
  method NativeSleep(deadline: Timespec, ghost before: Timespec, wake: Wake) returns (rc: SleepResult)
    requires Normal(deadline) && WakeAllowed(Total(deadline), before, wake)
    ensures rc == wake.rc
    ensures rc == Slept ==> Total(deadline) <= Total(wake.clock)
  {
    rc := wake.rc;
  }

  /** The deadline computation at the start of AOS_TaskDelay. */
  method AddMilliseconds(now: Timespec, ms: u32) returns (deadline: Timespec)
    requires Normal(now)
    ensures Normal(deadline) && Total(deadline) == Total(now) + ms * NS_PER_MS
  {
    DeadlinesAgree(now, ms);
    deadline := now;
    deadline := deadline.(sec := deadline.sec + ms / 1000);
    deadline := deadline.(nsec := deadline.nsec + (ms % 1000) * NS_PER_MS);
    if deadline.nsec >= NS_PER_S {
      deadline := deadline.(sec := deadline.sec + 1);
      deadline := deadline.(nsec := deadline.nsec - NS_PER_S);
    }
  }

  /** The do-while loop of AOS_TaskDelay. */
  method SleepUntil(deadline: Timespec, ghost start: Timespec, wakes: seq<Wake>) returns (rc: SleepResult, calls: nat)
    requires Normal(deadline) && ClockKeepsPromise(start, Total(deadline), wakes)
    requires exists k :: 0 <= k < |wakes| && wakes[k].rc != Interrupted
    ensures 0 < calls <= |wakes| && rc == wakes[calls - 1].rc != Interrupted
    ensures forall k :: 0 <= k < calls - 1 ==> wakes[k].rc == Interrupted
    ensures rc == Slept ==> Total(deadline) <= Total(wakes[calls - 1].clock)
  {
    rc := NativeSleep(deadline, start, wakes[0]);
    calls := 1;
    while rc == Interrupted
      invariant 0 < calls <= |wakes| && rc == wakes[calls - 1].rc
      invariant rc == Slept ==> Total(deadline) <= Total(wakes[calls - 1].clock)
      invariant forall k :: 0 <= k < calls - 1 ==> wakes[k].rc == Interrupted
      decreases |wakes| - calls
    {
      rc := NativeSleep(deadline, ClockBefore(start, wakes, calls), wakes[calls]);
      calls := calls + 1;
    }
  }

  /**
   * AOS_TaskDelay. `start` is the first clock reading, if it succeeds; `wakes` are the returns of
   * the sleep calls, as many interruptions as there are before one that is not. Success means
   * that the full time has passed.
   */
  method TaskDelay(ms: u32, start: Option<Timespec>, wakes: seq<Wake>) returns (status: Status, calls: nat)
    requires start.Some? ==> Normal(start.value)
    requires exists k :: 0 <= k < |wakes| && wakes[k].rc != Interrupted
    requires start.Some? ==> ClockKeepsPromise(start.value, Total(start.value) + ms * NS_PER_MS, wakes)
    ensures start.None? ==> status == Generic && calls == 0
    ensures start.Some? ==>
              && 0 < calls <= |wakes| && wakes[calls - 1].rc != Interrupted
              && (forall k :: 0 <= k < calls - 1 ==> wakes[k].rc == Interrupted)
              && (status == Success <==> wakes[calls - 1].rc == Slept)
    ensures status == Success ==> Total(wakes[calls - 1].clock) >= Total(start.value) + ms * NS_PER_MS
  {
    if start.None? {
      return Generic, 0;
    }
    var deadline := AddMilliseconds(start.value, ms);
    var rc;
    rc, calls := SleepUntil(deadline, start.value, wakes);
    status := if rc == Slept then Success else Generic;
  }

  /**
   * The retry loop cannot go on for ever: if every interruption lets the clock advance at all, at
   * most ms * 10^6 calls are interrupted.
   */
  lemma {:induction false} InterruptionsAreBounded(ms: u32, start: Timespec, wakes: seq<Wake>, n: nat)
    requires Normal(start) && n <= |wakes| && ClockKeepsPromise(start, Total(start) + ms * NS_PER_MS, wakes)
    requires forall k :: 0 <= k < n ==> wakes[k].rc == Interrupted
    requires forall k :: 0 <= k < n ==> Total(ClockBefore(start, wakes, k)) < Total(wakes[k].clock)
    ensures Total(ClockBefore(start, wakes, n)) >= Total(start) + n
    ensures n <= ms * NS_PER_MS
  {
    if n > 0 {
      InterruptionsAreBounded(ms, start, wakes, n - 1);
      assert WakeAllowed(Total(start) + ms * NS_PER_MS, ClockBefore(start, wakes, n - 1), wakes[n - 1]);
    }
  }
}
