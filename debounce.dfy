/** The `useDebounce` hook (src/hooks/useDebounce.ts) as a state machine: the
    settled value and the pending flag of the hook, the one timer its effect
    arms, and an explicit clock in milliseconds in place of the event loop. */
module Debounce {
  import opened Seqs

  /** A timer armed by the effect: the value it will settle and when it fires. */
  datatype Timer<T> = Timer(armed: T, deadline: int)

  /** The delay `setTimeout` waits: the argument is converted to a 32-bit signed
      `long`, wrapping modulo 2^32, and a negative result counts as zero. */
  function EffectiveDelay(delay: int): (r: nat)
    ensures 0 <= delay < 0x8000_0000 ==> r == delay
    ensures -0x8000_0000 <= delay < 0 ==> r == 0
    ensures 0x8000_0000 <= delay < 0x1_0000_0000 ==> r == 0
    ensures r < 0x8000_0000
  {
    var wrapped := ToLong(delay);
    if wrapped < 0 then 0 else wrapped
  }

  /** ECMAScript's ToInt32 on a whole number: the value modulo 2^32, read as a
      signed 32-bit integer. */
  function ToLong(x: int): (r: int)
    ensures -0x8000_0000 <= r < 0x8000_0000
    ensures (r - x) % 0x1_0000_0000 == 0
  {
    var m := x % 0x1_0000_0000;
    if m < 0x8000_0000 then m else m - 0x1_0000_0000
  }

  class Debouncer<T(==)> {
    /** The hook's arguments at the last render. */
    var input: T
    var delay: int
    /** `debouncedValue` and `isDebouncing`. */
    var settled: T
    var pending: bool
    /** The timer the last effect run armed and has not cleared; the hook never
        holds more than this one. */
    var timer: Option<Timer<T>>
    var now: int
    var mounted: bool
    /** Every value the hook has been rendered with, oldest first. */
    ghost var inputs: seq<T>

    ghost predicate Valid()
      reads this
    {
      && inputs != [] && input == inputs[|inputs| - 1]
      && settled in inputs
      && (timer.Some? ==> timer.value.armed == input
                          && now <= timer.value.deadline <= now + EffectiveDelay(delay))
      && (mounted ==> (pending <==> timer.Some?))
      && (!mounted ==> timer.None?)
      && (!pending ==> settled == input)
    }

    /** The first render: both cells take their initial values, then the effect
        runs, raising the pending flag and arming a timer with the value. */
    constructor (value: T, delay: int, now: int)
      ensures Valid()
      ensures input == value && this.delay == delay && this.now == now && mounted
      ensures settled == value && pending
      ensures timer == Some(Timer(value, now + EffectiveDelay(delay)))
      ensures inputs == [value]
    {
      input := value;
      this.delay := delay;
      this.now := now;
      settled := value;
      pending := false;
      mounted := true;
      inputs := [value];
      // effect on mount
      pending := true;
      timer := Some(Timer(value, now + EffectiveDelay(delay)));
    }

    /** A re-render with new arguments. When the value or the delay changed, the
        effect's cleanup clears the old timer and the effect runs again: pending
        is raised and a fresh timer is armed with the new value; the settled
        value does not move. Otherwise nothing happens. */
    method Render(value: T, newDelay: int)
      requires Valid() && mounted
      modifies this
      ensures Valid() && mounted
      ensures now == old(now) && settled == old(settled) && input == value && delay == newDelay
      ensures value == old(input) && newDelay == old(delay) ==>
        pending == old(pending) && timer == old(timer) && inputs == old(inputs)
      ensures value != old(input) || newDelay != old(delay) ==>
        pending && timer == Some(Timer(value, now + EffectiveDelay(newDelay)))
        && inputs == old(inputs) + [value]
    {
      if value != input || newDelay != delay {
        // cleanup of the previous effect run
        timer := None;
        input := value;
        delay := newDelay;
        inputs := inputs + [value];
        // the effect again
        pending := true;
        timer := Some(Timer(value, now + EffectiveDelay(newDelay)));
      }
    }

    /** Time passes. A timer whose deadline is reached fires: it settles the
        value it was armed with and lowers the pending flag. */
    method Advance(dt: nat)
      requires Valid()
      modifies this
      ensures Valid()
      ensures now == old(now) + dt
      ensures input == old(input) && delay == old(delay) && mounted == old(mounted)
      ensures inputs == old(inputs)
      ensures old(timer).Some? && old(timer).value.deadline <= now ==>
        settled == old(timer).value.armed && !pending && timer.None?
      ensures !(old(timer).Some? && old(timer).value.deadline <= now) ==>
        settled == old(settled) && pending == old(pending) && timer == old(timer)
    {
      now := now + dt;
      if timer.Some? && timer.value.deadline <= now {
        settled := timer.value.armed;
        pending := false;
        timer := None;
      }
    }

    /** Unmounting runs the last cleanup: the timer is cleared and will never
        fire; the cells keep their values. */
    method Unmount()
      requires Valid()
      modifies this
      ensures Valid() && !mounted && timer.None?
      ensures input == old(input) && delay == old(delay) && now == old(now)
      ensures settled == old(settled) && pending == old(pending) && inputs == old(inputs)
    {
      mounted := false;
      timer := None;
    }

    /** A burst of renders with no time passing, followed by one full delay: the
        last value is settled and pending is down; while the burst lasts the
        settled value never moves, so no intermediate value is settled. */
    method Burst(values: seq<T>) returns (ghost settledDuring: seq<T>)
      requires Valid() && mounted && values != []
      modifies this
      ensures Valid() && mounted
      ensures settled == values[|values| - 1] && !pending && timer.None?
      ensures input == values[|values| - 1]
      ensures |settledDuring| == |values|
      ensures forall i :: 0 <= i < |values| ==> settledDuring[i] == old(settled)
    {
      settledDuring := [];
      var i := 0;
      while i < |values|
        invariant 0 <= i <= |values|
        invariant Valid() && mounted
        invariant now == old(now) && settled == old(settled)
        invariant i > 0 ==> input == values[i - 1]
        invariant |settledDuring| == i
        invariant forall j :: 0 <= j < i ==> settledDuring[j] == old(settled)
      {
        Render(values[i], delay);
        settledDuring := settledDuring + [settled];
        i := i + 1;
      }
      Advance(EffectiveDelay(delay));
    }
  }
}
