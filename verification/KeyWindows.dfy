/**
 The keys a validator walks through and the time window that belongs to each of them.
 Keys are seconds, message timestamps are milliseconds.
 */
module KeyWindows {

  /** The two instants at which the step between keys grows to 10 and to 20 seconds. */
  datatype Thresholds = Thresholds(ten: int, twenty: int)

  /** The thresholds of the network, read as UTC. */
  const NETWORK := Thresholds(1688580000, 1688619600)

  function KeyStep(t: Thresholds, key: int): int {
    if key > t.twenty then 20
    else if key > t.ten then 10
    else 1
  }

  /** The step before `key`, computed as the program does: with the step at `key` taken back once. */
  function PrevKeyStep(t: Thresholds, key: int): int {
    KeyStep(t, key - KeyStep(t, key))
  }

  /** The key after `key`; key 0 stands for a pool that has no key yet. */
  function NextKey(t: Thresholds, startKey: int, key: int): int {
    if key == 0 then startKey else key + KeyStep(t, key)
  }

  function WindowFrom(t: Thresholds, key: int): int {
    (key - PrevKeyStep(t, key)) * 1000
  }

  function WindowTo(key: int): int {
    key * 1000
  }

  /** The window computed for a new key starts where the window of the key before it ends. */
  ghost predicate StartsAtPrevious(t: Thresholds, key: int) {
    WindowFrom(t, key + KeyStep(t, key)) == WindowTo(key)
  }

  /** The two steps to 10 and to 20 seconds never fall into one window. */
  predicate WellSpaced(t: Thresholds) {
    t.twenty <= t.ten || t.ten + 20 <= t.twenty
  }

  /** Windows join up at every key exactly when the thresholds are at least 20 seconds apart. */
  lemma WindowsJoinIffWellSpaced(t: Thresholds)
    ensures (forall key: int :: StartsAtPrevious(t, key)) <==> WellSpaced(t)
  {
    if !WellSpaced(t) {
      var key := if t.twenty < t.ten + 10 then t.twenty else t.ten + 10;
      assert !StartsAtPrevious(t, key);
    }
  }

  /** A run of `NextKey` from any positive key. */
  ghost predicate IsRun(t: Thresholds, startKey: int, keys: seq<int>) {
    && |keys| > 0
    && keys[0] > 0
    && forall i :: 0 < i < |keys| ==> keys[i] == NextKey(t, startKey, keys[i - 1])
  }

  lemma {:induction false} RunIncreases(t: Thresholds, startKey: int, keys: seq<int>, i: nat, j: nat)
    requires IsRun(t, startKey, keys) && i < j < |keys|
    ensures 0 < keys[i] < keys[j]
  {
    if i == 0 && j == 1 {
    } else if i + 1 < j {
      RunIncreases(t, startKey, keys, i, j - 1);
    } else {
      RunIncreases(t, startKey, keys, i - 1, i);
    }
  }

  /** Along a run over well spaced thresholds each window starts at the key before it. */
  lemma {:induction false} RunWindows(t: Thresholds, startKey: int, keys: seq<int>, i: nat)
    requires WellSpaced(t) && IsRun(t, startKey, keys) && 0 < i < |keys|
    ensures WindowFrom(t, keys[i]) == WindowTo(keys[i - 1])
  {
    WindowsJoinIffWellSpaced(t);
    if i > 1 {
      RunIncreases(t, startKey, keys, 0, i - 1);
    }
    assert StartsAtPrevious(t, keys[i - 1]);
  }

  /** `ts` falls into the window of `key`, the shared start excluded. */
  ghost predicate InWindow(t: Thresholds, key: int, ts: int) {
    WindowFrom(t, key) < ts <= WindowTo(key)
  }

  /** No gap and no overlap: every instant after the first key of a run falls into exactly one of its windows. */
  lemma {:induction false} WindowsTile(t: Thresholds, startKey: int, keys: seq<int>, ts: int)
    requires WellSpaced(t) && IsRun(t, startKey, keys)
    requires WindowTo(keys[0]) < ts <= WindowTo(keys[|keys| - 1])
    ensures exists i :: 0 < i < |keys| && InWindow(t, keys[i], ts)
    ensures forall i, j :: 0 < i < |keys| && 0 < j < |keys| && InWindow(t, keys[i], ts) && InWindow(t, keys[j], ts) ==> i == j
  {
    var n := |keys| - 1;
    forall i, j | 0 < i < j < |keys| && InWindow(t, keys[i], ts)
      ensures !InWindow(t, keys[j], ts)
    {
      RunWindows(t, startKey, keys, j);
      if i < j - 1 {
        RunIncreases(t, startKey, keys, i, j - 1);
      }
    }
    RunWindows(t, startKey, keys, n);
    if ts <= WindowTo(keys[n - 1]) {
      WindowsTile(t, startKey, keys[..n], ts);
      var i :| 0 < i < n && InWindow(t, keys[..n][i], ts);
      assert InWindow(t, keys[i], ts);
    } else {
      assert InWindow(t, keys[n], ts);
    }
  }

  /** A query takes both ends of its window, so two windows may share an instant, but only neighbours and only their common end. */
  lemma {:induction false} WindowsShareOnlyEnds(t: Thresholds, startKey: int, keys: seq<int>, i: nat, j: nat, ts: int)
    requires WellSpaced(t) && IsRun(t, startKey, keys) && 0 < i < j < |keys|
    requires WindowFrom(t, keys[i]) <= ts <= WindowTo(keys[i])
    requires WindowFrom(t, keys[j]) <= ts <= WindowTo(keys[j])
    ensures j == i + 1 && ts == WindowTo(keys[i])
  {
    RunWindows(t, startKey, keys, j);
    if i < j - 1 {
      RunIncreases(t, startKey, keys, i, j - 1);
    }
  }

  /** The thresholds in use satisfy the condition. */
  lemma NetworkIsWellSpaced()
    ensures WellSpaced(NETWORK)
  {
  }

  // ----- Dates and steps -----

  function LeapDays(year: nat): nat {
    year / 4 - year / 100 + year / 400
  }

  predicate IsLeap(year: nat) {
    year % 4 == 0 && (year % 100 != 0 || year % 400 == 0)
  }

  const DAYS_BEFORE_MONTH := [0, 31, 59, 90, 120, 151, 181, 212, 243, 273, 304, 334]

  /** Unix seconds of a full hour in the Gregorian calendar, UTC. */
  function SecondsAt(year: nat, month: nat, day: nat, hour: nat): int
    requires year >= 1970 && 1 <= month <= 12
  {
    var days := 365 * (year - 1970) + LeapDays(year - 1) - LeapDays(1969) +
      DAYS_BEFORE_MONTH[month - 1] + (if month > 2 && IsLeap(year) then 1 else 0) + day - 1;
    (days * 24 + hour) * 3600
  }

  /** The thresholds in use are 18:00 on 5 July 2023 and 5:00 on the next day. */
  lemma NetworkDates()
    ensures NETWORK.ten == SecondsAt(2023, 7, 5, 18) && NETWORK.twenty == SecondsAt(2023, 7, 6, 5)
  {
    assert LeapDays(2022) == 490 && LeapDays(1969) == 477;
  }

  /** Without a key the run starts at the start key. */
  lemma FirstKeyIsStartKey(t: Thresholds, startKey: int)
    requires startKey > 0
    ensures NextKey(t, startKey, 0) == startKey && IsRun(t, startKey, [NextKey(t, startKey, 0)])
    ensures WindowTo(NextKey(t, startKey, 0)) == 1000 * startKey
  {
  }

  /** Up to the first threshold every second is a key, and its window is one second long. */
  lemma {:induction false} EverySecondIsAKey(t: Thresholds, startKey: int, keys: seq<int>, i: nat)
    requires IsRun(t, startKey, keys) && i < |keys|
    requires i > 0 ==> keys[0] + i - 1 <= t.ten && keys[0] + i - 1 <= t.twenty
    ensures keys[i] == keys[0] + i
    ensures i > 0 ==> WindowTo(keys[i]) - WindowFrom(t, keys[i]) == 1000
  {
    if i > 0 {
      EverySecondIsAKey(t, startKey, keys, i - 1);
    }
  }

  /** Later keys are 10 seconds apart, and 20 from the second threshold on. */
  lemma LaterSteps(t: Thresholds, startKey: int, keys: seq<int>, i: nat)
    requires IsRun(t, startKey, keys) && 0 < i < |keys|
    ensures t.ten < keys[i - 1] <= t.twenty ==> keys[i] == keys[i - 1] + 10
    ensures t.twenty < keys[i - 1] ==> keys[i] == keys[i - 1] + 20
  {
    if i > 1 {
      RunIncreases(t, startKey, keys, 0, i - 1);
    }
  }
}
