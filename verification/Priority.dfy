/** How the 32 AOS priority levels land in the native real-time range (aos_task.c). */
module Priority {
  import opened Common

  /** AOS_CONFIG_TASK_PRIORITY_LEVELS, and AOS_TASK_PRIORITY_LOWEST; 0 is the highest. */
  const LEVELS: nat := 32
  const LOWEST: nat := 31

  const INT_MAX: int := 0x7FFF_FFFF

  /** AOS_PosixPolicyHasEnoughLevels, given what sched_get_priority_min and _max return. */
  predicate HasEnoughLevels(min: int, max: int)
  {
    0 <= min && 0 <= max && min < max && (max - min + 1) % TWO32 >= LEVELS
  }

  /** AOS_PosixMapPriority; the product is unsigned and wraps. */
  function MapPriority(min: int, max: int, priority: nat): int
  {
    max - ((max - min) * priority) % TWO32 / LOWEST
  }

  lemma ProductDoesNotWrap(range: nat, priority: nat)
    requires priority <= LOWEST && LOWEST * range < TWO32
    ensures (range * priority) % TWO32 == range * priority
  {
    assert range * (LOWEST - priority) >= 0;
  }

  lemma StepOfQuotient(a: nat, range: nat)
    ensures var step := (a + range) / LOWEST - a / LOWEST; range / LOWEST <= step <= range / LOWEST + 1
  {
  }

  /**
   * With at least 32 levels and no wrap, the map hits both ends, stays inside the range, and goes
   * down by range/31 or one more at every level.
   */
  lemma MapIsEven(min: int, max: int, priority: nat)
    requires 0 <= min < max && LOWEST * (max - min) < TWO32 && priority <= LOWEST
    ensures MapPriority(min, max, 0) == max && MapPriority(min, max, LOWEST) == min
    ensures min <= MapPriority(min, max, priority) <= max
    ensures priority < LOWEST ==>
              var step := MapPriority(min, max, priority) - MapPriority(min, max, priority + 1);
              (max - min) / LOWEST <= step <= (max - min) / LOWEST + 1
  {
    var range := max - min;
    ProductDoesNotWrap(range, 0);
    ProductDoesNotWrap(range, LOWEST);
    ProductDoesNotWrap(range, priority);
    QuotientInRange(range, priority);
    if priority < LOWEST {
      ProductDoesNotWrap(range, priority + 1);
      assert range * (priority + 1) == range * priority + range;
      StepOfQuotient(range * priority, range);
    }
  }

  /** A policy is taken exactly if its range has no errors in it and at least 32 levels. */
  lemma EnoughLevelsIff(min: int, max: int)
    requires max <= INT_MAX
    ensures HasEnoughLevels(min, max) <==> 0 <= min && min + 31 <= max
  {
    if 0 <= min < max { assert (max - min + 1) % TWO32 == max - min + 1; }
  }

  /** A level is as far below the top as its share of the range, rounded down to whole native levels. */
  lemma MapIsExact(min: int, max: int, priority: nat)
    requires 0 <= min < max && LOWEST * (max - min) < TWO32 && priority <= LOWEST
    ensures var down := max - MapPriority(min, max, priority); 31 * down <= (max - min) * priority < 31 * down + 31
  {
    ProductDoesNotWrap(max - min, priority);
  }

  lemma QuotientInRange(range: nat, priority: nat)
    requires priority <= LOWEST
    ensures 0 <= range * priority / LOWEST <= range
    ensures range * LOWEST / LOWEST == range
  {
    assert range * priority >= 0;
    assert range * (LOWEST - priority) >= 0;
    assert range * LOWEST == range * priority + range * (LOWEST - priority);
  }

  ghost predicate StrictlyDecreasing(min: int, max: int)
  {
    forall p, q :: 0 <= p < q <= LOWEST ==> MapPriority(min, max, p) > MapPriority(min, max, q)
  }

  /** Going down one level at a time. */
  lemma {:induction false} DecreasesByLevels(min: int, max: int, p: nat, q: nat)
    requires 0 <= min < max && LOWEST <= max - min && LOWEST * (max - min) < TWO32
    requires p <= q <= LOWEST
    ensures MapPriority(min, max, p) - MapPriority(min, max, q) >= q - p
  {
    if p < q {
      MapIsEven(min, max, q - 1);
      DecreasesByLevels(min, max, p, q - 1);
    }
  }

  lemma {:induction false} StrictMeansFar(min: int, max: int, p: nat)
    requires StrictlyDecreasing(min, max) && p <= LOWEST
    ensures MapPriority(min, max, p) <= MapPriority(min, max, 0) - p
  {
    if p > 0 { StrictMeansFar(min, max, p - 1); }
  }

  /**
   * The map keeps the order of all priorities exactly when the range has at least 32 levels and 31
   * times its width fits in 32 bits. Both are known before a task is created.
   */
  lemma MapIsFaithfulIff(min: int, max: int)
    requires 0 <= min < max <= INT_MAX
    ensures StrictlyDecreasing(min, max) <==> LOWEST <= max - min && LOWEST * (max - min) < TWO32
  {
    var range := max - min;
    if LOWEST * range >= TWO32 {
      var p := (TWO32 - 1) / range;
      WrapsAt(range, p);
      WrapBreaksOrder(min, max, p);
    } else if range < LOWEST {
      if StrictlyDecreasing(min, max) {
        StrictMeansFar(min, max, LOWEST);
        MapIsEven(min, max, 0);
      }
    } else {
      forall p, q | 0 <= p < q <= LOWEST ensures MapPriority(min, max, p) > MapPriority(min, max, q) {
        DecreasesByLevels(min, max, p, q);
      }
    }
  }

  lemma WrapsAt(range: nat, p: nat)
    requires 0 < range <= INT_MAX && LOWEST * range >= TWO32 && p == (TWO32 - 1) / range
    ensures p < LOWEST && range * p < TWO32 <= range * (p + 1)
  {
    var r := (TWO32 - 1) % range;
    assert TWO32 - 1 == range * p + r;
    assert range * (p + 1) == range * p + range;
    assert p >= LOWEST ==> range * p == range * LOWEST + range * (p - LOWEST) >= range * LOWEST;
  }

  lemma WrapBreaksOrder(min: int, max: int, p: nat)
    requires 0 <= min < max <= INT_MAX && p < LOWEST
    requires (max - min) * p < TWO32 <= (max - min) * (p + 1)
    ensures MapPriority(min, max, p) <= MapPriority(min, max, p + 1)
  {
    var range := max - min;
    var a, b := range * p, range * (p + 1);
    assert b == a + range && a >= 0;
    assert a % TWO32 == a && b % TWO32 == b - TWO32;
    assert b - TWO32 <= a;
  }

  /** Native policies, as sched_* numbers them; SCHED_OTHER is the fallback. */
  datatype Policy = Other | Fifo | RoundRobin

  /** What the environment answers to AOS_PosixConfigureRtPolicy. */
  datatype Probe = Probe(
    fifoMin: int, fifoMax: int, rrMin: int, rrMax: int,
    getOk: bool, trial: SetResult, restoreOk: bool, required: bool)

  datatype SetResult = SetOk | SetEperm | SetEinval | SetOther

  /** Some real-time policy has enough levels, preferably FIFO. */
  predicate SomePolicyFits(probe: Probe)
  {
    HasEnoughLevels(probe.fifoMin, probe.fifoMax) || HasEnoughLevels(probe.rrMin, probe.rrMax)
  }

  /** The process may use it. */
  predicate RtAvailable(probe: Probe) { SomePolicyFits(probe) && probe.getOk && probe.trial == SetOk }

  /** The g_rt_* globals of aos_task.c. */
  class RtConfig {
    var enabled: bool
    var policy: Policy
    var min: int
    var max: int

    /** Whenever RT is enabled, its range has at least 32 levels. */
    predicate Valid()
      reads this
    {
      enabled ==> HasEnoughLevels(min, max) && policy != Other
    }

    constructor ()
      ensures Valid() && !enabled && policy == Other && min == 0 && max == 0
    {
      enabled, policy, min, max := false, Other, 0, 0;
    }

    /**
     * AOS_PosixConfigureRtPolicy: FIFO before RR. Called again after an initialisation that failed to
     * restore the caller's scheduling, it may find RT enabled, and leaves it so if it fails.
     */
    method Configure(probe: Probe) returns (status: Status)
      requires Valid()
      modifies this
      ensures Valid()
      ensures enabled <==> RtAvailable(probe) || (old(enabled) && probe.required)
      ensures RtAvailable(probe) ==>
                if HasEnoughLevels(probe.fifoMin, probe.fifoMax)
                then policy == Fifo && min == probe.fifoMin && max == probe.fifoMax
                else policy == RoundRobin && min == probe.rrMin && max == probe.rrMax
      ensures status == Success <==> (if RtAvailable(probe) then probe.restoreOk else !probe.required)
      ensures status == PermissionDenied <==> probe.required && SomePolicyFits(probe) && probe.getOk && probe.trial == SetEperm
      ensures status == Unsupported <==>
                probe.required && (!SomePolicyFits(probe) || (probe.getOk && probe.trial == SetEinval))
      ensures status in {Success, PermissionDenied, Unsupported, CreationFailed}
      ensures enabled && max <= INT_MAX && LOWEST * (max - min) < TWO32 ==> StrictlyDecreasing(min, max)
    {
      if HasEnoughLevels(probe.fifoMin, probe.fifoMax) {
        policy, min, max := Fifo, probe.fifoMin, probe.fifoMax;
      } else if HasEnoughLevels(probe.rrMin, probe.rrMax) {
        policy, min, max := RoundRobin, probe.rrMin, probe.rrMax;
      } else {
        if enabled { OrderKept(); }
        enabled := enabled && probe.required;
        return if probe.required then Unsupported else Success;
      }
      OrderKept();
      if !probe.getOk {
        enabled := enabled && probe.required;
        return if probe.required then CreationFailed else Success;
      }
      if probe.trial == SetOk {
        enabled := true;
        return if probe.restoreOk then Success else CreationFailed;
      }
      if probe.required {
        return match probe.trial case SetEperm => PermissionDenied case SetEinval => Unsupported case _ => CreationFailed;
      }
      enabled := false;
      return Success;
    }

    lemma OrderKept()
      requires HasEnoughLevels(min, max)
      ensures max <= INT_MAX && LOWEST * (max - min) < TWO32 ==> StrictlyDecreasing(min, max)
    {
      if max <= INT_MAX {
        EnoughIsWide(min, max);
        MapIsFaithfulIff(min, max);
      }
    }
  }

  lemma EnoughIsWide(min: int, max: int)
    requires HasEnoughLevels(min, max)
    ensures max <= INT_MAX ==> LOWEST <= max - min
  {
    if max <= INT_MAX { assert (max - min + 1) % TWO32 == max - min + 1; }
  }
}
