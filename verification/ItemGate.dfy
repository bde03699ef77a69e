/** When a validator may produce the data item of a key, and which system messages recovery must have delivered by then. */
module ItemGate {
  import opened Prelude
  import opened SystemRecovery
  import opened RecoveryRuns
  import opened RecoverySafety
  import opened RecoveryLimits
  import T = TimeIndexer

  datatype Item = Empty | NotYet | Generated

  /** The listener's clock: recovery alone until it is complete, then the later of recovery and live traffic. */
  function LatestTimestamp(live: Option<nat>, recovery: Summary): Option<nat> {
    if !recovery.isComplete then recovery.timestamp
    else
      var recovered := recovery.timestamp.GetOr(0);
      Some(if live.GetOr(0) > recovered then live.GetOr(0) else recovered)
  }

  /** Keys are seconds and the listener's clock is milliseconds; a clock at 0 counts as not set. */
  function GetDataItem(key: nat, indexed: Option<nat>, listened: Option<nat>): Item {
    if key == 0 then Empty
    else if indexed.GetOr(0) == 0 || key > indexed.GetOr(0) then NotYet
    else if listened.GetOr(0) == 0 || key as real > listened.GetOr(0) as real / 1000.0 then NotYet
    else Generated
  }

  /** The listener has heard of `t`: live traffic counts only once recovery is complete. */
  predicate HasReached(live: Option<nat>, recovery: Summary, t: nat) {
    || (recovery.timestamp.Some? && recovery.timestamp.value >= t)
    || (recovery.isComplete && live.Some? && live.value >= t)
  }

  /** Key 0 is empty; any other item is produced exactly when the time index and the listener have both reached its key. */
  lemma GeneratedIff(key: nat, indexed: Option<nat>, live: Option<nat>, recovery: Summary)
    ensures GetDataItem(key, indexed, LatestTimestamp(live, recovery)) ==
            if key == 0 then Empty
            else if indexed.Some? && key <= indexed.value && HasReached(live, recovery, 1000 * key) then Generated
            else NotYet
  {
    var listened := LatestTimestamp(live, recovery);
    if listened.Some? {
      assert key as real > listened.value as real / 1000.0 <==> 1000 * key > listened.value;
    }
  }

  /**
   An item that is produced has its end in the time index: after any run of the indexer with a start block that has
   come to `indexed`, `find` answers its key with the first block that is not earlier.
   */
  lemma GeneratedIsIndexed(key: nat, live: Option<nat>, recovery: Summary,
                           chain: T.Chain, startBlock: nat, outputs: seq<T.Event>, parse: T.Parser, first: Option<nat>)
    requires T.Increasing(chain) && 0 < startBlock <= |chain| && T.PrintsBlocks(outputs, parse, chain, startBlock)
    requires T.Run(parse, outputs).Ok?
    requires T.IsFirstKey(T.Run(parse, outputs).value.state.db, key, first)
    requires GetDataItem(key, T.Run(parse, outputs).value.state.latest, LatestTimestamp(live, recovery)) == Generated
    ensures var r := T.Found(T.Run(parse, outputs).value.state.db, key, first);
            r.Ok? && T.IsFirstBlock(chain, startBlock, key, r.value)
  {
    GeneratedIff(key, T.Run(parse, outputs).value.state.latest, live, recovery);
    T.FindAgreesWithChain(chain, startBlock, outputs, parse, key, first);
  }

  /** The time of the last live message. */
  ghost function LastLive(events: seq<Event>): Option<nat> {
    if events == [] then None
    else if events[|events| - 1].Live? then Some(events[|events| - 1].message.timestamp)
    else LastLive(events[..|events| - 1])
  }

  ghost function ItemAt(c: Config, events: seq<Event>, key: nat, indexed: Option<nat>): Item
    requires IsRun(c, INITIAL, events) && Run(c, INITIAL, events).st.Valid()
  {
    GetDataItem(key, indexed, LatestTimestamp(LastLive(events), Run(c, INITIAL, events).st.Aggregate()))
  }

  /** An item is generated only if recovery is complete or every broker's record has recovered at least to its key. */
  lemma GeneratedNeedsRecovery(st: State, key: nat, indexed: Option<nat>, live: Option<nat>)
    requires st.Valid()
    requires GetDataItem(key, indexed, LatestTimestamp(live, st.Aggregate())) == Generated
    ensures st.Aggregate().isComplete ||
            forall a :: a in st.progresses ==> st.Record(a).timestamp.Some? && st.Record(a).timestamp.value >= 1000 * key
  {
    if !st.Aggregate().isComplete {
      assert st.AllStamped();
      forall a | a in st.progresses ensures st.Record(a).timestamp.value >= st.From() {
        assert st.Record(a).timestamp.value in st.Timestamps();
      }
    }
  }

  /** No system message a broker holds before the end of an item's window is missed, unless a complete aggregate is not fulfilled. */
  lemma GeneratedMissesNothing(c: Config, events: seq<Event>, key: nat, indexed: Option<nat>)
    requires ValidConfig(c) && IsQuietRun(c, INITIAL, events)
    ensures IsRun(c, INITIAL, events) && Run(c, INITIAL, events).st.Valid()
    ensures var s := Run(c, INITIAL, events);
            ItemAt(c, events, key, indexed) == Generated &&
            (s.st.Aggregate().isComplete ==> s.st.Aggregate().isFulfilled || s.st.From() >= 1000 * key) ==>
              NothingMissedBefore(c, s, 1000 * key)
  {
    RecoveryMissesNothing(c, events);
  }

  // ----- Exactly when an item lacks no system message -----

  /** A quiet run that ends with the given aggregate and the given time of the last live message. */
  ghost predicate EndsWith(c: Config, events: seq<Event>, recovery: Summary, live: Option<nat>) {
    && ValidConfig(c) && IsQuietRun(c, INITIAL, events) && IsRun(c, INITIAL, events)
    && Run(c, INITIAL, events).st.Valid()
    && Run(c, INITIAL, events).st.Aggregate() == recovery
    && LastLive(events) == live
  }

  ghost predicate IsReachable(recovery: Summary) {
    exists c, events, live :: EndsWith(c, events, recovery, live)
  }

  /** Whatever the brokers hold and however the run went, no system message before the end of its window is missed when an item is produced now. */
  ghost predicate ItemsAreWhole(key: nat, indexed: Option<nat>, recovery: Summary, live: Option<nat>) {
    forall c, events :: EndsWith(c, events, recovery, live) ==>
      ItemAt(c, events, key, indexed) == Generated ==> NothingMissedBefore(c, Run(c, INITIAL, events), 1000 * key)
  }

  lemma LiveIsLast(events: seq<Event>, live: Message)
    ensures LastLive(events + [Live(live)]) == Some(live.timestamp)
  {
  }

  /** With a complete but unfulfilled aggregate behind the window's end, only a live message can have set the clock. */
  lemma OnlyLiveTrafficGenerates(key: nat, indexed: Option<nat>, recovery: Summary, live: Option<nat>)
    requires recovery.isComplete && recovery.timestamp.Some? && recovery.timestamp.value < 1000 * key
    requires GetDataItem(key, indexed, LatestTimestamp(live, recovery)) == Generated
    ensures live.Some? && live.value >= 1000 * key
  {
    var clock := LatestTimestamp(live, recovery).value;
    assert key as real <= clock as real / 1000.0;
    assert clock >= 1000 * key;
  }

  /** For every such aggregate and live clock there is a run that produces an item while a system message is missed. */
  lemma UnfulfilledRoundLetsItemThrough(key: nat, indexed: Option<nat>, recovered: nat, live: nat) returns (c: Config, events: seq<Event>)
    requires recovered < 1000 * key <= live && recovered <= MAX_SAFE_INTEGER
    ensures EndsWith(c, events, Summary(Some(recovered), true, false), Some(live))
    ensures !NothingMissedBefore(c, Run(c, INITIAL, events), 1000 * key)
  {
    var w := Times(recovered, recovered, recovered);
    var message := Message(live, "live");
    var earlier := UnfulfilledSteps(w, message);
    c := World(w, 0);
    events := earlier + [Live(message)];
    var s := Unfulfilled(w, FirstsUpTo(w, 0) + {message});
    WorldIsValid(w, 0);
    OneRecordAggregate(s.st, s.st.records[0]);
    LiveIsLast(earlier, message);
    SecondIsNoFirst(w, 0);
    SecondIsMissing(w, 0, s);
  }

  lemma ReachableIsStamped(recovery: Summary)
    requires IsReachable(recovery) && recovery.isComplete
    ensures recovery.timestamp.Some? && recovery.timestamp.value <= MAX_SAFE_INTEGER
  {
    var c, events, live :| EndsWith(c, events, recovery, live);
    assert Run(c, INITIAL, events).st.AllStamped();
  }

  /**
   For every key, clocks and aggregate that a run can reach: an item produced then lacks no system message, whatever the
   brokers hold, exactly when the gate holds back, or the aggregate is incomplete, fulfilled, or recovered to the window's end.
   */
  lemma ItemsAreWholeIff(key: nat, indexed: Option<nat>, recovery: Summary, live: Option<nat>)
    requires IsReachable(recovery)
    ensures ItemsAreWhole(key, indexed, recovery, live) <==>
            (GetDataItem(key, indexed, LatestTimestamp(live, recovery)) == Generated && recovery.isComplete ==>
               recovery.isFulfilled || recovery.timestamp.GetOr(0) >= 1000 * key)
  {
    if GetDataItem(key, indexed, LatestTimestamp(live, recovery)) == Generated && recovery.isComplete &&
      !recovery.isFulfilled && recovery.timestamp.GetOr(0) < 1000 * key
    {
      ReachableIsStamped(recovery);
      OnlyLiveTrafficGenerates(key, indexed, recovery, live);
      var c, events := UnfulfilledRoundLetsItemThrough(key, indexed, recovery.timestamp.value, live.value);
      assert ItemAt(c, events, key, indexed) == Generated;
    } else {
      forall c, events | EndsWith(c, events, recovery, live) && ItemAt(c, events, key, indexed) == Generated
        ensures NothingMissedBefore(c, Run(c, INITIAL, events), 1000 * key)
      {
        GeneratedMissesNothing(c, events, key, indexed);
      }
    }
  }
}
