/** The sliding-window failure counter. */
module FailCounters {

  datatype State = State(values: seq<int>, emitted: nat)

  function DropOld(values: seq<int>, now: int, time: int): seq<int> {
    if values != [] && now - values[0] >= time then DropOld(values[1..], now, time) else values
  }

  function Inc(s: State, now: int, threshold: int, time: int): State {
    var values := DropOld(s.values, now, time) + [now];
    State(values, s.emitted + if |values| > threshold then 1 else 0)
  }

  function Run(times: seq<int>, threshold: int, time: int): State {
    if times == [] then State([], 0)
    else Inc(Run(times[..|times| - 1], threshold, time), times[|times| - 1], threshold, time)
  }

  /** The calls of the history that lie within the window before `now`. */
  function Window(times: seq<int>, now: int, time: int): seq<int> {
    if times == [] then []
    else
      var rest := Window(times[..|times| - 1], now, time);
      if now - times[|times| - 1] < time then rest + [times[|times| - 1]] else rest
  }

  ghost predicate Monotone(times: seq<int>) {
    forall i, j | 0 <= i < j < |times| :: times[i] <= times[j]
  }

  /** Where the window begins in a history that never goes back. */
  lemma {:induction false} WindowStart(times: seq<int>, now: int, time: int) returns (k: nat)
    requires Monotone(times)
    ensures k <= |times| && Window(times, now, time) == times[k..]
    ensures forall i | 0 <= i < k :: now - times[i] >= time
    ensures forall i | k <= i < |times| :: now - times[i] < time
    ensures k < |times| ==> now - times[k] < time
  {
    if times == [] {
      k := 0;
    } else {
      var n := |times| - 1;
      k := WindowStart(times[..n], now, time);
      if now - times[n] < time {
        assert times[k..] == times[..n][k..] + [times[n]];
      } else {
        assert forall i | 0 <= i < n :: times[..n][i] == times[i] <= times[n];
        k := |times|;
      }
    }
  }

  lemma {:induction false} DropOldIsSuffix(values: seq<int>, now: int, time: int, k: nat)
    requires k <= |values|
    requires (forall i | 0 <= i < k :: now - values[i] >= time) && (k < |values| ==> now - values[k] < time)
    ensures DropOld(values, now, time) == values[k..]
  {
    if k > 0 {
      DropOldIsSuffix(values[1..], now, time, k - 1);
    }
  }

  /** Dropping the old from a window that ended earlier gives the window that ends now. */
  lemma DropOldOfWindow(times: seq<int>, before: int, now: int, time: int)
    requires Monotone(times) && before <= now
    ensures DropOld(Window(times, before, time), now, time) == Window(times, now, time)
  {
    var j := WindowStart(times, before, time);
    var k := WindowStart(times, now, time);
    assert forall i | 0 <= i < j :: now - times[i] >= time;
    DropOldIsSuffix(times[j..], now, time, k - j);
  }

  /** With a clock that never goes back, the stored values are exactly the calls within
      the window exactly when the window is positive; with no window only the last call
      is kept, which is outside. */
  lemma {:induction false} StoredIsWindowExactlyWhen(times: seq<int>, threshold: int, time: int)
    requires Monotone(times) && times != []
    ensures var now := times[|times| - 1];
            Run(times, threshold, time).values == Window(times, now, time) <==> time > 0
  {
    var n := |times| - 1;
    var now, before := times[n], times[..n];
    if time > 0 {
      if n > 0 {
        StoredIsWindowExactlyWhen(before, threshold, time);
        DropOldOfWindow(before, before[n - 1], now, time);
      }
    } else {
      NoWindow(times, now, time);
      assert Run(times, threshold, time).values != [];
    }
  }

  lemma {:induction false} NoWindow(times: seq<int>, now: int, time: int)
    requires time <= 0 && forall i | 0 <= i < |times| :: times[i] <= now
    ensures Window(times, now, time) == []
  {
    if times != [] {
      NoWindow(times[..|times| - 1], now, time);
    }
  }

  /** `exceedLimit` is emitted on exactly those calls that end with more than `threshold`
      calls in the window. */
  lemma EmitsExactlyWhenExceeded(times: seq<int>, threshold: int, time: int)
    requires Monotone(times) && times != [] && time > 0
    ensures var before, now := times[..|times| - 1], times[|times| - 1];
            var more := if |Window(times, now, time)| > threshold then 1 else 0;
            Run(times, threshold, time).emitted == Run(before, threshold, time).emitted + more
  {
    StoredIsWindowExactlyWhen(times, threshold, time);
  }

  /** Where a call cuts the stored values: behind the first ones that are out of the window. */
  lemma {:induction false} CutAt(values: seq<int>, now: int, time: int) returns (k: nat)
    ensures k <= |values| && DropOld(values, now, time) == values[k..]
    ensures forall i | 0 <= i < k :: now - values[i] >= time
    ensures k < |values| ==> now - values[k] < time
  {
    if values != [] && now - values[0] >= time {
      k := CutAt(values[1..], now, time);
      assert values[1..][k..] == values[k + 1..];
      k := k + 1;
    } else {
      k := 0;
    }
  }

  /** With any clock and any window: a call drops the stored values before the first that is
      still in the window, and no others, and keeps itself; it emits exactly when more than
      `threshold` values are stored then. */
  lemma EachCallCuts(times: seq<int>, threshold: int, time: int)
    requires times != []
    ensures var before, s, now := Run(times[..|times| - 1], threshold, time), Run(times, threshold, time), times[|times| - 1];
            && s.values != []
            && var k: int := |before.values| + 1 - |s.values|;
               && 0 <= k <= |before.values| && s.values == before.values[k..] + [now]
               && (forall i | 0 <= i < k :: now - before.values[i] >= time)
               && (k < |before.values| ==> now - before.values[k] < time)
               && s.emitted == before.emitted + if |s.values| > threshold then 1 else 0
  {
    var k := CutAt(Run(times[..|times| - 1], threshold, time).values, times[|times| - 1], time);
  }

  class FailCounter {
    const threshold: int
    const time: int
    var values: seq<int>
    var emitted: nat

    ghost function View(): State
      reads this
    {
      State(values, emitted)
    }

    constructor (threshold: int, time: int)
      ensures View() == Run([], threshold, time) && this.threshold == threshold && this.time == time
    {
      this.threshold, this.time, values, emitted := threshold, time, [], 0;
    }

    method Increment(now: int)
      modifies this
      ensures View() == Inc(old(View()), now, threshold, time)
    {
      while |values| > 0
        invariant emitted == old(emitted)
        invariant DropOld(values, now, time) == DropOld(old(values), now, time)
        decreases |values|
      {
        if now - values[0] >= time {
          values := values[1..];
        } else {
          break;
        }
      }
      assert values == DropOld(old(values), now, time);
      values := values + [now];
      if |values| > threshold {
        emitted := emitted + 1;
      }
    }
  }
}
