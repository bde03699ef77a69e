/** What the program decides on each message: to restart, to wait, to ask for the next round, or to stop. */
module RecoveryDecisions {
  import opened Prelude
  import opened SystemRecovery
  import opened RecoveryRuns
  import opened RecoverySafety

  ghost function ReactionTo(c: Config, s: System, b: Address, r: nat, k: nat): Reaction
    requires Enabled(c, s, Arrive(b, r, k))
  {
    s.st.OnMessage(r, b, ContentOf(c.held[b], s.rounds[r].replies[b], k)).1
  }

  /** The last number that the publisher's record knows; a publisher without a record starts like a new record. */
  function LastKnown(st: State, b: Address): int
    requires st.Valid()
  {
    if b in st.progresses then st.Record(b).lastSeqNum else -1
  }

  /** The message belongs to the current request and leaves no gap after the last number. */
  predicate IsAccepted(s: System, b: Address, r: nat, k: nat)
    requires s.st.Valid()
  {
    s.st.requestId == Some(r) && k <= LastKnown(s.st, b) + 1
  }

  predicate IsRejected(s: System, b: Address, r: nat, k: nat)
    requires s.st.Valid()
  {
    s.st.requestId == Some(r) && k > LastKnown(s.st, b) + 1
  }

  /** The last message of a reply is its completion. */
  predicate IsCompletion(s: System, b: Address, r: nat, k: nat)
    requires r < |s.rounds| && b in s.rounds[r].replies
  {
    k + 1 == |s.rounds[r].replies[b].cuts|
  }

  ghost predicate AllComplete(st: State)
    requires st.Valid()
  {
    forall a :: a in st.progresses ==> st.Record(a).timestamp.Some? && st.Record(a).isComplete
  }

  ghost predicate AllFulfilled(st: State)
    requires st.Valid()
  {
    forall a :: a in st.progresses ==> st.Record(a).isFulfilled
  }

  // ----- One message -----

  lemma AggregateSays(st: State)
    requires st.Valid() && st.progresses != map[]
    ensures st.Aggregate().isComplete <==> AllComplete(st)
    ensures st.Aggregate().isComplete ==> (st.Aggregate().isFulfilled <==> AllFulfilled(st))
  {
  }

  lemma CompletionCloses(c: Config, s: System, b: Address, r: nat, k: nat)
    requires Enabled(c, s, Arrive(b, r, k)) && IsAccepted(s, b, r, k) && IsCompletion(s, b, r, k)
    ensures var reply := s.rounds[r].replies[b];
            Step(c, s, Arrive(b, r, k)) == Closed(Seen(s, b, r), b, k, reply.isFulfilled, reply.publishedAt)
  {
    ArriveCases(c, s, b, r, k);
  }

  /** The records after an accepted completion: the publisher's is complete as its reply says, and no other changes. */
  lemma CompletionIsRecorded(c: Config, s: System, b: Address, r: nat, k: nat)
    requires Enabled(c, s, Arrive(b, r, k)) && IsAccepted(s, b, r, k) && IsCompletion(s, b, r, k)
    ensures var (t, reply) := (Step(c, s, Arrive(b, r, k)), s.rounds[r].replies[b]);
            && t.st.Valid() && t.st.progresses.Keys == s.st.progresses.Keys + {b}
            && t.st.Record(b).isComplete && t.st.Record(b).isFulfilled == reply.isFulfilled
            && t.st.Record(b).timestamp == Some(TimestampOf(s.st, b).GetOr(reply.publishedAt))
            && t.st.Record(b).lastSeqNum == LastKnown(s.st, b)
            && forall a :: a in s.st.progresses && s.st.progresses[a] != t.st.progresses[b] ==> t.st.Record(a) == s.st.Record(a)
  {
    CompletionCloses(c, s, b, r, k);
  }

  lemma CompletionDecides(c: Config, s: System, b: Address, r: nat, k: nat)
    requires Enabled(c, s, Arrive(b, r, k)) && IsAccepted(s, b, r, k) && IsCompletion(s, b, r, k)
    requires Step(c, s, Arrive(b, r, k)).st.Valid()
    ensures var st := Step(c, s, Arrive(b, r, k)).st;
            ReactionTo(c, s, b, r, k) ==
            if !AllComplete(st) then Collecting else if AllFulfilled(st) then Stopped else NextRound
  {
    CompletionCloses(c, s, b, r, k);
    AggregateSays(Step(c, s, Arrive(b, r, k)).st);
  }

  /**
   The decision, on the records as the message leaves them: a completion stops recovery when all are complete and
   fulfilled, asks for the next round when all are complete and some is not fulfilled, and waits otherwise.
   */
  lemma DecisionIs(c: Config, s: System, b: Address, r: nat, k: nat)
    requires Enabled(c, s, Arrive(b, r, k)) && Step(c, s, Arrive(b, r, k)).st.Valid()
    ensures var (reaction, st) := (ReactionTo(c, s, b, r, k), Step(c, s, Arrive(b, r, k)).st);
            var isCompleted := IsAccepted(s, b, r, k) && IsCompletion(s, b, r, k);
            && (reaction == Ignored <==> s.st.requestId != Some(r))
            && (reaction.Restarting? <==> IsRejected(s, b, r, k))
            && (reaction == Restarting(true) <==> IsRejected(s, b, r, k) && !s.st.isRestarting)
            && (reaction.Started? <==> IsAccepted(s, b, r, k) && !IsCompletion(s, b, r, k))
            && (reaction == Stopped <==> isCompleted && AllComplete(st) && AllFulfilled(st))
            && (reaction == NextRound <==> isCompleted && AllComplete(st) && !AllFulfilled(st))
            && (reaction == Collecting <==> isCompleted && !AllComplete(st))
  {
    if IsAccepted(s, b, r, k) && IsCompletion(s, b, r, k) {
      CompletionDecides(c, s, b, r, k);
    }
  }

  // ----- Over runs -----

  lemma {:induction false} RunIsValid(c: Config, s: System, events: seq<Event>)
    requires IsRun(c, s, events) && s.st.Valid()
    ensures Run(c, s, events).st.Valid()
    decreases |events|
  {
    if events != [] {
      StepIsValid(c, s, events[0]);
      RunIsValid(c, Step(c, s, events[0]), events[1..]);
    }
  }

  lemma StepIsValid(c: Config, s: System, e: Event)
    requires Enabled(c, s, e)
    ensures Step(c, s, e).st.Valid()
  {
    if e.Arrive? {
      ArriveCases(c, s, e.broker, e.round, e.k);
    }
  }

  /** When a message stops recovery, every message each broker holds was handed to the listener. */
  lemma StoppedMissesNothing(c: Config, events: seq<Event>, b: Address, r: nat, k: nat)
    requires ValidConfig(c) && IsQuietRun(c, INITIAL, events) && IsRun(c, INITIAL, events)
    requires var s := Run(c, INITIAL, events);
             Enabled(c, s, Arrive(b, r, k)) && Quiet(s, Arrive(b, r, k)) && ReactionTo(c, s, b, r, k) == Stopped
    ensures NothingMissed(c, Run(c, INITIAL, events)) && NothingMissed(c, Step(c, Run(c, INITIAL, events), Arrive(b, r, k)))
  {
    var s := Run(c, INITIAL, events);
    var t := Step(c, s, Arrive(b, r, k));
    RunSound(c, INITIAL, events);
    StepSound(c, s, Arrive(b, r, k));
    StepIsValid(c, s, Arrive(b, r, k));
    DecisionIs(c, s, b, r, k);
    ArriveCases(c, s, b, r, k);
    AggregateSays(t.st);
    AggregateIsTrue(c, t);
  }

  /** A message out of sequence, or a handler that throws. */
  ghost predicate IsFailure(c: Config, s: System, e: Event)
    requires Enabled(c, s, e)
  {
    e.Throw? || (e.Arrive? && IsRejected(s, e.broker, e.round, e.k))
  }

  lemma StepRestarting(c: Config, s: System, e: Event)
    requires Enabled(c, s, e)
    ensures Step(c, s, e).st.isRestarting <==> !e.Reset? && (IsFailure(c, s, e) || s.st.isRestarting)
  {
    if e.Arrive? {
      ArriveCases(c, s, e.broker, e.round, e.k);
    }
  }

  ghost predicate NoReset(events: seq<Event>) {
    forall e :: e in events ==> !e.Reset?
  }

  /** Event `i` fails and no reset comes after it. */
  ghost predicate FailsLast(c: Config, s: System, events: seq<Event>, i: nat) {
    && i < |events| && NoReset(events[i..])
    && IsRun(c, s, events[..i])
    && Enabled(c, Run(c, s, events[..i]), events[i]) && IsFailure(c, Run(c, s, events[..i]), events[i])
  }

  ghost predicate FailedSinceReset(c: Config, s: System, events: seq<Event>) {
    exists i: nat :: FailsLast(c, s, events, i)
  }

  lemma FailsLater(c: Config, s: System, events: seq<Event>, i: nat)
    requires events != [] && Enabled(c, s, events[0])
    ensures FailsLast(c, Step(c, s, events[0]), events[1..], i) <==> FailsLast(c, s, events, i + 1)
  {
    if i + 1 < |events| {
      assert events[..i + 1][0] == events[0] && events[..i + 1][1..] == events[1..][..i];
      assert events[1..][i..] == events[i + 1..];
    }
  }

  lemma FailedNext(c: Config, s: System, events: seq<Event>)
    requires events != [] && Enabled(c, s, events[0])
    ensures FailedSinceReset(c, s, events) <==>
            (NoReset(events) && IsFailure(c, s, events[0])) || FailedSinceReset(c, Step(c, s, events[0]), events[1..])
  {
    var next := Step(c, s, events[0]);
    assert events[0..] == events && events[..0] == [];
    assert FailsLast(c, s, events, 0) <==> NoReset(events) && IsFailure(c, s, events[0]);
    if i: nat :| FailsLast(c, next, events[1..], i) {
      FailsLater(c, s, events, i);
    }
    if i: nat :| FailsLast(c, s, events, i) && i > 0 {
      FailsLater(c, s, events, i - 1);
    }
  }

  lemma NoResetNext(events: seq<Event>)
    requires events != []
    ensures NoReset(events) <==> !events[0].Reset? && NoReset(events[1..])
  {
    assert events == [events[0]] + events[1..];
  }

  lemma {:induction false} RestartingMeans(c: Config, s: System, events: seq<Event>)
    requires IsRun(c, s, events)
    ensures Run(c, s, events).st.isRestarting <==>
            FailedSinceReset(c, s, events) || (s.st.isRestarting && NoReset(events))
    decreases |events|
  {
    if events != [] {
      RestartingMeans(c, Step(c, s, events[0]), events[1..]);
      StepRestarting(c, s, events[0]);
      FailedNext(c, s, events);
      NoResetNext(events);
    }
  }

  /** Over every run, a restart is scheduled exactly for the first failure since the last reset. */
  lemma OneRestartPerReset(c: Config, events: seq<Event>, b: Address, r: nat, k: nat)
    requires IsRun(c, INITIAL, events) && Enabled(c, Run(c, INITIAL, events), Arrive(b, r, k))
    ensures var s := Run(c, INITIAL, events);
            ReactionTo(c, s, b, r, k) == Restarting(true) <==>
            IsRejected(s, b, r, k) && !FailedSinceReset(c, INITIAL, events)
  {
    var s := Run(c, INITIAL, events);
    StepIsValid(c, s, Arrive(b, r, k));
    DecisionIs(c, s, b, r, k);
    RestartingMeans(c, INITIAL, events);
  }
}
