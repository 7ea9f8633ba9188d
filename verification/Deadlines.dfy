/** Timeouts and periodic delays of tasks.c, whose counters wrap, against times that do not. */
module Deadlines {
  import opened Clock

  // ----- vTaskDelayUntil -----

  /** The branches of `vTaskDelayUntil`: should the task sleep until `wake`? */
  predicate ShouldDelay(tick: nat, previous: nat, wake: nat) {
    if tick < previous then wake < previous && tick < wake else wake < previous || tick < wake
  }

  /** How long `vTaskDelayUntil` sleeps, in wrapped times. */
  function SleepsFor(tick: nat, previous: nat, increment: nat, ticks: Modulus): nat
    requires tick < ticks
  {
    var wake := Wrap(previous + increment, ticks);
    if ShouldDelay(tick, previous, wake) then Minus(wake, tick, ticks) else 0
  }

  /** What the branches amount to, for any two times: they measure the lateness within one range. */
  lemma SleepsForIs(tick: nat, previous: nat, increment: nat, ticks: Modulus)
    requires tick < ticks && previous < ticks && 0 < increment < ticks
    ensures var late := Minus(tick, previous, ticks);
      && (ShouldDelay(tick, previous, Wrap(previous + increment, ticks)) <==> late < increment)
      && SleepsFor(tick, previous, increment, ticks) == if late < increment then increment - late else 0
  {
    WrapSmall(previous, ticks);
    WrapAdd(previous, increment, ticks);
  }

  /** A task that is not early is put to sleep exactly when its lateness, wrapped, is less than the increment. */
  lemma LateIsWrapped(previous: nat, now: nat, increment: nat, ticks: Modulus)
    requires previous <= now && 0 < increment < ticks
    ensures var should := ShouldDelay(Wrap(now, ticks), Wrap(previous, ticks), Wrap(previous + increment, ticks));
      && (should <==> Wrap(now - previous, ticks) < increment)
      && ((should <==> now < previous + increment) <==> now < previous + ticks || increment <= Wrap(now - previous, ticks))
  {
    SleepsForIs(Wrap(now, ticks), Wrap(previous, ticks), increment, ticks);
    WrapPlus(previous, increment, ticks);
    MinusIsWrapped(now, previous, ticks);
    if now < previous + ticks { WrapSmall(now - previous, ticks); }
    hide Wrap, ShouldDelay;
  }

  /** One whose previous wake time is still ahead is told to sleep only when that is nearly whole ranges away. */
  lemma EarlyIsWrapped(previous: nat, now: nat, increment: nat, ticks: Modulus)
    requires now < previous && 0 < increment < ticks
    ensures var ahead := Wrap(previous - now, ticks);
      ShouldDelay(Wrap(now, ticks), Wrap(previous, ticks), Wrap(previous + increment, ticks)) <==>
        ahead == 0 || ticks < ahead + increment
  {
    SleepsForIs(Wrap(now, ticks), Wrap(previous, ticks), increment, ticks);
    WrapPlus(previous, increment, ticks);
    MinusIsWrapped(previous, now, ticks);
    MinusIsOpposite(Wrap(now, ticks), Wrap(previous, ticks), ticks);
    hide Wrap, ShouldDelay;
  }

  /**
   * `vTaskDelayUntil` sleeps exactly until its target, or not at all when that has passed, if and
   * only if the previous wake time is not ahead and the task is less than one range late, or as
   * good as that: late by whole ranges and at least one increment.
   */
  lemma DelayUntilIsExact(previous: nat, now: nat, increment: nat, ticks: Modulus)
    requires 0 < increment < ticks
    ensures SleepsFor(Wrap(now, ticks), Wrap(previous, ticks), increment, ticks) ==
              (if now < previous + increment then previous + increment - now else 0) <==>
            previous <= now && (now < previous + ticks || increment <= Wrap(now - previous, ticks))
  {
    SleepsForIs(Wrap(now, ticks), Wrap(previous, ticks), increment, ticks);
    if previous <= now {
      MinusIsWrapped(now, previous, ticks);
      if now < previous + ticks { WrapSmall(now - previous, ticks); }
    }
    hide Wrap, SleepsFor;
  }

  /** A task one whole range late is put to sleep for a target that has long passed. */
  lemma DelayUntilTooLate(ticks: Modulus)
    ensures ShouldDelay(Wrap(ticks, ticks), Wrap(0, ticks), Wrap(1, ticks))
  {
    WrapAdd(0, 1, ticks);
    WrapSmall(0, ticks);
    WrapUnique(ticks, 1, 0, ticks);
  }

  /** A task that is resumed in the middle of its sleep and calls again does not sleep, though its target is ahead. */
  lemma DelayUntilTooEarly(ticks: Modulus)
    requires 110 < ticks
    ensures !ShouldDelay(Wrap(50, ticks), Wrap(100, ticks), Wrap(110, ticks))
  {
    WrapSmall(50, ticks);
    WrapSmall(100, ticks);
    WrapSmall(110, ticks);
  }

  // ----- xTaskCheckForTimeOut -----

  /** TimeOut_t: the overflow count and the tick count at some moment. */
  datatype TimeOut = TimeOut(overflows: nat, entered: nat)

  function Moment(time: nat, ticks: Modulus): TimeOut { TimeOut(Wraps(time, ticks), Wrap(time, ticks)) }

  datatype Check = Check(expired: bool, entry: TimeOut, left: nat)

  /** `xTaskCheckForTimeOut`; a wait of portMAX_DELAY never ends. */
  function CheckForTimeOut(overflows: nat, tick: nat, entry: TimeOut, wait: nat, ticks: Modulus): Check
    requires tick < ticks && entry.entered < ticks
  {
    if wait == ticks - 1 then Check(false, entry, wait)
    else if overflows != entry.overflows && entry.entered <= tick then Check(true, entry, wait)
    else if Minus(tick, entry.entered, ticks) < wait then
      Check(false, TimeOut(overflows, tick), wait - Minus(tick, entry.entered, ticks))
    else Check(true, entry, wait)
  }

  /** The case that the two counters cannot tell from a short wait. */
  predicate Aliased(overflows: nat, tick: nat, entry: TimeOut, wait: nat, ticks: Modulus)
    requires tick < ticks && entry.entered < ticks
  {
    entry.overflows + 2 <= overflows && tick < entry.entered && Minus(tick, entry.entered, ticks) < wait
  }

  lemma WholeRangesApart(start: nat, now: nat, ticks: Modulus)
    requires start <= now
    ensures Wraps(start, ticks) <= Wraps(now, ticks)
    ensures Wraps(now, ticks) == Wraps(start, ticks) ==> now - start == Wrap(now, ticks) - Wrap(start, ticks)
    ensures Wraps(now, ticks) == Wraps(start, ticks) + 1 ==> now - start == ticks + Wrap(now, ticks) - Wrap(start, ticks)
    ensures Wraps(now, ticks) >= Wraps(start, ticks) + 2 ==> now - start > ticks
  {
    var j, k := Wraps(start, ticks), Wraps(now, ticks);
    WrapParts(start, ticks);
    WrapParts(now, ticks);
    EpochStep(j, ticks);
    EpochOrder(j + 1, k, ticks);
    EpochOrder(k, j, ticks);
    hide Wrap, Wraps, Epoch;
  }

  /**
   * A finite wait is reported over exactly when its ticks have passed, unless the counters are
   * aliased; and when it is not reported the stored entry and remainder keep the same deadline.
   */
  lemma CheckIsExact(start: nat, now: nat, wait: nat, ticks: Modulus)
    requires start <= now && wait < ticks - 1
    ensures var r := CheckForTimeOut(Wraps(now, ticks), Wrap(now, ticks), Moment(start, ticks), wait, ticks);
      && ((r.expired <==> start + wait <= now) <==>
          !Aliased(Wraps(now, ticks), Wrap(now, ticks), Moment(start, ticks), wait, ticks))
      && (r.expired ==> start + wait <= now && r.entry == Moment(start, ticks) && r.left == wait)
      && (!r.expired && now < start + wait ==> r.entry == Moment(now, ticks) && now + r.left == start + wait)
  {
    WholeRangesApart(start, now, ticks);
    hide Wrap, Wraps;
  }

  /** The same for every wait, in terms of the distance between the two times. */
  lemma CheckIs(start: nat, now: nat, wait: nat, ticks: Modulus)
    requires start <= now && wait < ticks
    ensures var r := CheckForTimeOut(Wraps(now, ticks), Wrap(now, ticks), Moment(start, ticks), wait, ticks);
      && (wait == ticks - 1 ==> r == Check(false, Moment(start, ticks), wait))
      && (wait < ticks - 1 ==>
            ((r.expired <==> start + wait <= now) <==>
             !(Wraps(start, ticks) + 2 <= Wraps(now, ticks) && Wrap(now, ticks) < Wrap(start, ticks) && Wrap(now - start, ticks) < wait)))
      && (r.expired ==> start + wait <= now && r.entry == Moment(start, ticks) && r.left == wait)
      && (!r.expired && wait < ticks - 1 && now < start + wait ==> r.entry == Moment(now, ticks) && now + r.left == start + wait)
  {
    MinusIsWrapped(now, start, ticks);
    if wait < ticks - 1 { CheckIsExact(start, now, wait, ticks); }
    hide Wrap, Wraps;
  }

  /** Reached: a task that sleeps through two wraps is told that its wait of two ticks is not over. */
  lemma AliasedCase(ticks: Modulus)
    requires ticks > 3
    ensures !CheckForTimeOut(Wraps(2 * ticks, ticks), Wrap(2 * ticks, ticks), Moment(ticks - 1, ticks), 2, ticks).expired
  {
    EpochStep(0, ticks);
    EpochStep(1, ticks);
    WrapUnique(2 * ticks, 2, 0, ticks);
    WrapUnique(ticks - 1, 0, ticks - 1, ticks);
  }

  // ----- the retry loops of xQueueGenericSend and xQueueGenericReceive -----

  /**
   * One pass of a retry loop, as its task sees it: was the queue usable, when was the timeout
   * checked, and was the queue still unusable after that check?
   */
  datatype Pass = Pass(usable: bool, checked: nat, stillBlocked: bool)

  datatype Outcome = Done | TimedOut | Waiting

  /**
   * At each check the tick count has wrapped at most once since the stored entry time, which every
   * check before the deadline moves up.
   */
  ghost predicate Timely(entry: nat, deadline: nat, passes: seq<Pass>, ticks: Modulus)
    decreases |passes|
  {
    passes == [] ||
    (entry <= passes[0].checked && Wraps(passes[0].checked, ticks) <= Wraps(entry, ticks) + 1 &&
     Timely(if passes[0].checked < deadline then passes[0].checked else entry, deadline, passes[1..], ticks))
  }

  /**
   * The loop of `xQueueGenericSend` (`again` false) and of `xQueueGenericReceive` (`again` true),
   * entered at time `first`; `again` says that a timeout looks at the queue once more.  It gives up
   * in the first pass that finds the queue unusable at or after the deadline first + wait, never
   * before, and a wait of portMAX_DELAY never gives up.
   */
  method RetryLoop(first: nat, wait: nat, passes: seq<Pass>, again: bool, ticks: Modulus) returns (outcome: Outcome, n: nat)
    requires wait < ticks && (wait < ticks - 1 ==> Timely(first, first + wait, passes, ticks))
    ensures n <= |passes| && (n == |passes| <==> outcome == Waiting)
    ensures forall i :: 0 <= i < n ==>
      && !passes[i].usable && wait > 0
      && (wait == ticks - 1 || passes[i].checked < first + wait || (again && !passes[i].stillBlocked))
    ensures outcome == Done ==> passes[n].usable
    ensures outcome == TimedOut ==>
      && !passes[n].usable && wait < ticks - 1
      && (wait == 0 || (first + wait <= passes[n].checked && (again ==> passes[n].stillBlocked)))
  {
    var ticksToWait, entryTimeSet, timeOut := wait, false, TimeOut(0, 0);
    ghost var entered: nat := first;
    n := 0;
    while n < |passes|
      invariant n <= |passes| && timeOut.entered < ticks
      invariant forall i :: 0 <= i < n ==>
        && !passes[i].usable && wait > 0
        && (wait == ticks - 1 || passes[i].checked < first + wait || (again && !passes[i].stillBlocked))
      invariant entryTimeSet ==> wait > 0 && timeOut == Moment(entered, ticks)
      invariant !entryTimeSet ==> entered == first && ticksToWait == wait
      invariant wait == ticks - 1 ==> ticksToWait == wait && entered == first
      invariant wait < ticks - 1 ==> entered + ticksToWait == first + wait && ticksToWait <= wait
      invariant wait > 0 ==> ticksToWait > 0
      invariant wait < ticks - 1 ==> Timely(entered, first + wait, passes[n..], ticks)
    {
      if passes[n].usable {
        return Done, n;
      }
      if ticksToWait == 0 {
        return TimedOut, n;
      }
      if !entryTimeSet {
        timeOut, entryTimeSet := Moment(first, ticks), true;
      }
      var now := passes[n].checked;
      if wait < ticks - 1 {
        CheckIsExact(entered, now, ticksToWait, ticks);
        assert passes[n..][1..] == passes[n + 1..];
      }
      var check := CheckForTimeOut(Wraps(now, ticks), Wrap(now, ticks), timeOut, ticksToWait, ticks);
      timeOut, ticksToWait := check.entry, check.left;
      if check.expired && (!again || passes[n].stillBlocked) {
        return TimedOut, n;
      }
      if !check.expired && wait < ticks - 1 { entered := now; }
      n := n + 1;
    }
    outcome := Waiting;
  }

  // ----- the deadline over many checks -----

  /** How many of the checks say "not yet" before the first that says "over". */
  function Survives(entry: TimeOut, left: nat, times: seq<nat>, ticks: Modulus): nat
    requires entry.entered < ticks
    decreases |times|
  {
    if times == [] then 0 else
      var c := CheckForTimeOut(Wraps(times[0], ticks), Wrap(times[0], ticks), entry, left, ticks);
      if c.expired then 0 else 1 + Survives(c.entry, c.left, times[1..], ticks)
  }

  ghost predicate Spaced(start: nat, times: seq<nat>, ticks: Modulus)
    decreases |times|
  {
    times == [] || (start <= times[0] && Wraps(times[0], ticks) <= Wraps(start, ticks) + 1 && Spaced(times[0], times[1..], ticks))
  }

  /**
   * However often a task retries, its deadline stays where it was: the checks before start + wait
   * all say "not yet" and the first one at or after it says "over".
   */
  lemma {:induction false} DeadlineNeverMoves(start: nat, wait: nat, times: seq<nat>, ticks: Modulus)
    requires wait < ticks - 1 && Spaced(start, times, ticks)
    ensures var n := Survives(Moment(start, ticks), wait, times, ticks);
      && n <= |times| && (forall i :: 0 <= i < n ==> times[i] < start + wait)
      && (n < |times| ==> start + wait <= times[n])
    decreases |times|
  {
    if times != [] {
      CheckIsExact(start, times[0], wait, ticks);
      if times[0] < start + wait {
        DeadlineNeverMoves(times[0], start + wait - times[0], times[1..], ticks);
      }
    }
  }
}
