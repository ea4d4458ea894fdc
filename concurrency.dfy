/** The wave scheduler `processAll` and the poller `waitFor`.

    `processAll` keeps two counters: `index`, the items launched, and
    `processed`, the launched items whose promise has settled. Each turn of
    its loop launches a wave of up to `concurrency` items, but only when every
    earlier launch has settled, and then sleeps. Promises settle only while
    the loop sleeps, so settlement is an event between turns here. */
module ConcurrencyUtil {

  /** One invocation of the callback: the item and its position. The other
      two arguments, the options object and the array, are the same in every
      call. */
  datatype Launch<T> = Launch(item: T, index: nat)

  /** The number of items one wave launches from position `index` of `n`:
      the inner loop runs while `i < concurrency && index < n`. */
  function WaveSize(concurrency: int, n: nat, index: nat): (k: nat)
    requires index <= n
    ensures index + k <= n
    ensures concurrency <= 0 ==> k == 0
    ensures concurrency > 0 ==> k <= concurrency
    ensures concurrency > 0 && index < n ==> k > 0
    ensures concurrency > 0 ==> k == n - index || k == concurrency
  {
    if concurrency <= 0 then 0
    else if concurrency < n - index then concurrency
    else n - index
  }

  class Scheduler<T> {
    /** The array and the concurrency passed to `processAll`; any further
        argument (urls.js passes a sixth one) is ignored. */
    const items: seq<T>
    const concurrency: int

    var index: nat
    var processed: nat
    /** Launched callbacks whose promise has not settled yet. */
    var outstanding: nat
    /** Launched callbacks that threw before returning a promise: they are
        logged and never counted as processed. */
    var lost: nat
    /** Every call of the callback so far, in call order. */
    var launches: seq<Launch<T>>

    ghost predicate Valid()
      reads this
    {
      && processed <= index <= |items|
      && processed + outstanding + lost == index
      && index - processed <= (if concurrency > 0 then concurrency else 0)
      && |launches| == index
      && (forall k :: 0 <= k < index ==> launches[k] == Launch(items[k], k))
    }

    constructor (items: seq<T>, concurrency: int)
      ensures Valid()
      ensures this.items == items && this.concurrency == concurrency
      ensures index == 0 && processed == 0 && outstanding == 0 && lost == 0
      ensures launches == []
    {
      this.items := items;
      this.concurrency := concurrency;
      index, processed, outstanding, lost := 0, 0, 0, 0;
      launches := [];
    }

    /** The gate of the loop body: a wave starts only when nothing launched
        is still unsettled. */
    predicate Gate()
      reads this
    {
      processed >= index && index < |items|
    }

    /** The number of launched callbacks not yet counted as processed. */
    method InFlight() returns (n: nat)
      requires Valid()
      ensures n == index - processed
      ensures n <= (if concurrency > 0 then concurrency else 0)
      ensures n == outstanding + lost
    {
      n := index - processed;
    }

    /** One turn of the loop before its sleep: if the gate passes, the wave
        (`dequeue`) calls the callback on the next items in order, and
        advances `index` past each of them, whether the call returned a
        promise or threw. `throwsAt` holds the positions whose callback throws
        before returning a promise. */
    method Step(throwsAt: set<nat>)
      requires Valid()
      modifies this`index, this`outstanding, this`lost, this`launches
      ensures Valid()
      ensures processed == old(processed)
      ensures old(Gate()) ==> index == old(index) + WaveSize(concurrency, |items|, old(index))
      ensures !old(Gate()) ==> index == old(index) && launches == old(launches)
      ensures launches[..old(index)] == old(launches)
      ensures lost == old(lost) + |set k | old(index) <= k < index && k in throwsAt|
      ensures old(lost) > 0 ==> index == old(index)
    {
      if processed >= index && index < |items| {
        var start := index;
        var i := 0;
        while i < concurrency && index < |items|
          invariant index == start + i
          invariant start <= index <= |items|
          invariant i <= (if concurrency > 0 then concurrency else 0)
          invariant processed == start
          invariant processed + outstanding + lost == index
          invariant |launches| == index
          invariant forall k :: 0 <= k < index ==> launches[k] == Launch(items[k], k)
          invariant launches[..start] == old(launches)
          invariant lost == old(lost) + |set k | start <= k < index && k in throwsAt|
          invariant index < |items| && i < concurrency ==> i < WaveSize(concurrency, |items|, start)
          invariant i <= WaveSize(concurrency, |items|, start)
          decreases |items| - index
        {
          launches := launches + [Launch(items[index], index)];
          ghost var before := set k | start <= k < index && k in throwsAt;
          ghost var after := set k | start <= k < index + 1 && k in throwsAt;
          if index in throwsAt {
            assert after == before + {index};
            lost := lost + 1;
          } else {
            assert after == before;
            outstanding := outstanding + 1;
          }
          index := index + 1;
          i := i + 1;
        }
      } else {
        assert (set k | old(index) <= k < index && k in throwsAt) == {};
      }
    }

    /** One promise settles during the sleep. Fulfilled or rejected, it
        increments `processed` exactly once. */
    method Settle(rejected: bool)
      requires Valid() && outstanding > 0
      modifies this`processed, this`outstanding
      ensures Valid()
      ensures processed == old(processed) + 1 && outstanding == old(outstanding) - 1
    {
      processed := processed + 1;
      outstanding := outstanding - 1;
    }

    /** The `while (index < array.length)` loop of `processAll`, driven by
        the environment: `settling[r]` promises settle during the sleep after
        turn `r` (at most those outstanding). `returned` tells whether the
        loop ended within these turns; it ends as soon as `index` reaches the
        end of the array, without waiting for the promises still outstanding. */
    method Run(throwsAt: set<nat>, settling: seq<nat>) returns (returned: bool)
      requires Valid()
      modifies this`index, this`processed, this`outstanding, this`lost, this`launches
      ensures Valid()
      ensures returned <==> index == |items|
      ensures processed >= old(processed) && index >= old(index)
      ensures concurrency <= 0 ==> index == old(index)
      ensures old(lost) > 0 ==> index == old(index)
    {
      var r := 0;
      while index < |items| && r < |settling|
        invariant Valid()
        invariant r <= |settling|
        invariant processed >= old(processed) && index >= old(index)
        invariant concurrency <= 0 ==> index == old(index)
        invariant old(lost) > 0 ==> index == old(index) && lost > 0
        decreases |settling| - r
      {
        Step(throwsAt);
        var s := 0;
        while s < settling[r] && outstanding > 0
          invariant Valid()
          invariant processed >= old(processed) && index >= old(index)
          invariant concurrency <= 0 ==> index == old(index)
          invariant old(lost) > 0 ==> index == old(index) && lost > 0
        {
          Settle(false);
          s := s + 1;
        }
        r := r + 1;
      }
      returned := index == |items|;
    }
  }

  /** The run returns before its last wave settles: with two items and a
      concurrency of two, the first turn launches both, and the loop
      condition fails before either promise has settled. */
  method ReturnsBeforeLastWaveSettles() returns (returned: bool, launched: seq<Launch<string>>, settled: nat)
    ensures returned && launched == [Launch("a", 0), Launch("b", 1)] && settled == 0
  {
    var s := new Scheduler(["a", "b"], 2);
    s.Step({});
    returned := s.index == |s.items|;
    launched, settled := s.launches, s.processed;
  }

  /** A callback that throws before returning a promise blocks the gate for
      good: with a concurrency of one, the first item throws, and the next
      turns launch nothing, whatever settles. */
  method SynchronousThrowStallsTheLoop() returns (returned: bool, launched: nat)
    ensures !returned && launched == 1
  {
    var s := new Scheduler([1, 2], 1);
    var throws: set<nat> := {0};
    s.Step(throws);
    assert (set k | 0 <= k < 1 && k in throws) == {0};
    assert s.lost == 1 && s.outstanding == 0 && s.index == 1;
    returned := s.Run(throws, [5, 5, 5]);
    launched := s.index;
  }

  /** What `waitFor` does, in order. */
  datatype TimerEvent = Poll(result: bool) | Sleep(ms: nat) | Callback

  /** `waitFor(delay, condition, callback)`: while `condition()` is false it
      re-arms itself after `delay`; once it is true it calls `callback` after
      `delay`. `polls[k]` is what the k-th call of `condition()` returns (the
      condition may change state, as the import handler's does); the trace
      stops when the polls run out. */
  function WaitFor(delay: nat, polls: seq<bool>): (trace: seq<TimerEvent>)
    ensures Callback in trace <==> true in polls
    ensures Callback in trace ==>
      |trace| >= 3 && trace[|trace| - 1] == Callback && trace[|trace| - 3] == Poll(true)
      && Callback !in trace[..|trace| - 1]
    ensures forall k :: 0 <= k < |trace| && trace[k] == Poll(true) ==> k == |trace| - 3
  {
    if polls == [] then []
    else if polls[0] then [Poll(true), Sleep(delay), Callback]
    else [Poll(false), Sleep(delay)] + WaitFor(delay, polls[1..])
  }

  /** The position of the first true poll. */
  function FirstTrue(polls: seq<bool>): (k: nat)
    requires true in polls
    ensures k < |polls| && polls[k]
    ensures forall j :: 0 <= j < k ==> !polls[j]
  {
    if polls[0] then 0 else 1 + FirstTrue(polls[1..])
  }

  /** When the callback runs, the condition has been polled exactly up to its
      first true answer, and `delay` has passed after every poll. */
  lemma {:induction false} WaitForPollsUntilTrue(delay: nat, polls: seq<bool>)
    requires true in polls
    ensures |WaitFor(delay, polls)| == 2 * FirstTrue(polls) + 3
    ensures forall j :: 0 <= j <= FirstTrue(polls) ==>
      WaitFor(delay, polls)[2 * j] == Poll(polls[j]) && WaitFor(delay, polls)[2 * j + 1] == Sleep(delay)
  {
    if !polls[0] {
      var tail := polls[1..];
      var k := FirstTrue(polls);
      assert tail[k - 1] == polls[k];
      assert FirstTrue(tail) == k - 1;
      WaitForPollsUntilTrue(delay, tail);
      var rest := WaitFor(delay, tail);
      var trace := WaitFor(delay, polls);
      assert trace == [Poll(false), Sleep(delay)] + rest;
      forall j | 1 <= j <= k
        ensures trace[2 * j] == Poll(polls[j]) && trace[2 * j + 1] == Sleep(delay)
      {
        assert trace[2 * j] == rest[2 * (j - 1)];
        assert trace[2 * j + 1] == rest[2 * (j - 1) + 1];
        assert polls[j] == tail[j - 1];
      }
    }
  }
}
