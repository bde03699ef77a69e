/** Waiting for The Graph to index up to a block, with one gate per wait and a poller that opens them. */
module IndexingState {
  import opened Gates

  /** One call of `waitUntilIndexed`: its gate, the block it wants, and whether it was given up. */
  datatype Wait = Wait(blockNumber: int, gate: Gate, timedOut: bool) {
    predicate IsPending() {
      gate.isClosed && !timedOut
    }

    predicate HasReturned() {
      !gate.isClosed && !timedOut
    }

    function OpenIf(reached: bool): Wait {
      if reached then this.(gate := gate.Open()) else this
    }
  }

  /**
   `waits` lists every wait ever started, and a gate is named by its place in it. Pollers are
   either awaiting the index (`requesting`) or sleeping between two requests.
   `observed` records the answers of the index so far.
   */
  datatype State = State(
    blockNumber: int,
    gates: set<nat>,
    waits: seq<Wait>,
    requesting: nat,
    sleeping: nat,
    observed: set<int>)

  const INITIAL := State(0, {}, [], 0, 0, {})

  /** A wait for a block beyond the index closes its gate, and starts a poller if no gate was waiting. */
  function WaitUntilIndexed(s: State, blockNumber: int): State {
    if blockNumber > s.blockNumber then
      s.(waits := s.waits + [Wait(blockNumber, Gates.NEW_GATE.Close(), false)],
         gates := s.gates + {|s.waits|},
         requesting := if s.gates == {} then s.requesting + 1 else s.requesting)
    else s.(waits := s.waits + [Wait(blockNumber, Gates.NEW_GATE, false)])
  }

  /** A wait gives up and takes its gate out of the set. */
  function TimeOut(s: State, id: nat): State
    requires id < |s.waits|
  {
    s.(waits := s.waits[id := s.waits[id].(timedOut := true)], gates := s.gates - {id})
  }

  predicate Reached(s: State, blockNumber: int, id: nat) {
    id in s.gates && id < |s.waits| && s.waits[id].blockNumber <= blockNumber
  }

  /** Gates whose block is indexed are opened and dropped; a number that did not change opens nothing. */
  function Observe(s: State, blockNumber: int): State {
    if blockNumber == s.blockNumber then s.(observed := s.observed + {blockNumber})
    else
      s.(blockNumber := blockNumber,
         observed := s.observed + {blockNumber},
         gates := (set id | id in s.gates && !Reached(s, blockNumber, id)),
         waits := seq(|s.waits|, id requires 0 <= id < |s.waits| =>
             s.waits[id].OpenIf(Reached(s, blockNumber, id))))
  }

  /** The answer of the index reaches one poller, which goes to sleep if a gate is still waiting and ends otherwise. */
  function PollAnswered(s: State, blockNumber: int): State
    requires s.requesting > 0
  {
    var seen := Observe(s, blockNumber);
    seen.(requesting := s.requesting - 1, sleeping := if seen.gates != {} then s.sleeping + 1 else s.sleeping)
  }

  /** A sleeping poller wakes and asks again if a gate is waiting. */
  function Wake(s: State): State
    requires s.sleeping > 0
  {
    s.(sleeping := s.sleeping - 1, requesting := if s.gates != {} then s.requesting + 1 else s.requesting)
  }

  /** The request throws, and the poller is gone. */
  function PollFailed(s: State): State
    requires s.requesting > 0
  {
    s.(requesting := s.requesting - 1)
  }

  class Indexing {
    var blockNumber: int
    var gates: set<nat>
    var waits: seq<Wait>
    var requesting: nat
    var sleeping: nat
    ghost var observed: set<int>

    constructor ()
      ensures Model() == INITIAL
    {
      blockNumber, gates, waits, requesting, sleeping, observed := 0, {}, [], 0, 0, {};
    }

    ghost function Model(): State
      reads this
    {
      State(blockNumber, gates, waits, requesting, sleeping, observed)
    }

    method GetOrCreateGate(wanted: int) returns (id: nat)
      modifies this
      ensures Model() == WaitUntilIndexed(old(Model()), wanted) && id == |old(waits)|
    {
      id := |waits|;
      var gate := Gates.NEW_GATE;
      if wanted > blockNumber {
        var isPolling := |gates| > 0;
        gate := gate.Close();
        gates := gates + {id};
        if !isPolling {
          requesting := requesting + 1;
        }
      }
      waits := waits + [Wait(wanted, gate, false)];
    }

    /** The `forEach` over the gates, which opens and deletes as it goes. */
    method OpenReached(newBlockNumber: int)
      requires forall id :: id in gates ==> id < |waits|
      modifies this
      ensures blockNumber == old(blockNumber) && requesting == old(requesting) && sleeping == old(sleeping)
      ensures observed == old(observed)
      ensures gates == set id | id in old(gates) && !Reached(old(Model()), newBlockNumber, id)
      ensures |waits| == |old(waits)|
      ensures forall id :: 0 <= id < |waits| ==>
                waits[id] == old(waits)[id].OpenIf(Reached(old(Model()), newBlockNumber, id))
    {
      var todo := gates;
      while todo != {}
        invariant todo <= old(gates) && |waits| == |old(waits)|
        invariant blockNumber == old(blockNumber) && requesting == old(requesting) && sleeping == old(sleeping)
        invariant observed == old(observed)
        invariant forall id :: id in gates <==> id in old(gates) && (id in todo || !Reached(old(Model()), newBlockNumber, id))
        invariant forall id :: 0 <= id < |waits| ==>
                    waits[id] == old(waits)[id].OpenIf(id !in todo && Reached(old(Model()), newBlockNumber, id))
      {
        var id :| id in todo;
        todo := todo - {id};
        if waits[id].blockNumber <= newBlockNumber {
          waits := waits[id := waits[id].(gate := waits[id].gate.Open())];
          gates := gates - {id};
        }
      }
    }

    /** The poller from the answer to its next suspension. */
    method OnPollAnswer(newBlockNumber: int)
      requires requesting > 0 && forall id :: id in gates ==> id < |waits|
      modifies this
      ensures Model() == PollAnswered(old(Model()), newBlockNumber)
    {
      ghost var seen := Observe(Model(), newBlockNumber);
      observed := observed + {newBlockNumber};
      if newBlockNumber != blockNumber {
        blockNumber := newBlockNumber;
        OpenReached(newBlockNumber);
      }
      assert gates == seen.gates && waits == seen.waits;
      requesting := requesting - 1;
      if |gates| > 0 {
        sleeping := sleeping + 1;
      }
    }

    method OnTimeout(id: nat)
      requires id < |waits|
      modifies this
      ensures Model() == TimeOut(old(Model()), id)
    {
      waits := waits[id := waits[id].(timedOut := true)];
      gates := gates - {id};
    }
  }

  // ----- Runs -----

  datatype Event =
    | StartWait(blockNumber: int)
    | GiveUp(id: nat)
    | Answer(blockNumber: int)
    | WakeUp
    | RequestFails

  predicate Enabled(s: State, e: Event) {
    match e
    case StartWait(_) => true
    case GiveUp(id) => id < |s.waits| && s.waits[id].IsPending()
    case Answer(_) => s.requesting > 0
    case WakeUp => s.sleeping > 0
    case RequestFails => s.requesting > 0
  }

  function Step(s: State, e: Event): State
    requires Enabled(s, e)
  {
    match e
    case StartWait(blockNumber) => WaitUntilIndexed(s, blockNumber)
    case GiveUp(id) => TimeOut(s, id)
    case Answer(blockNumber) => PollAnswered(s, blockNumber)
    case WakeUp => Wake(s)
    case RequestFails => PollFailed(s)
  }

  ghost predicate IsRun(events: seq<Event>)
    decreases |events|, 0
  {
    events != [] ==>
      IsRun(events[..|events| - 1]) && Enabled(Run(events[..|events| - 1]), events[|events| - 1])
  }

  ghost function Run(events: seq<Event>): State
    requires IsRun(events)
    decreases |events|, 1
  {
    if events == [] then INITIAL else Step(Run(events[..|events| - 1]), events[|events| - 1])
  }

  predicate SomePollerAlive(s: State) {
    s.requesting + s.sleeping > 0
  }

  /** The set holds exactly the waits still pending; each of them wants a block beyond the last observed index. */
  ghost predicate GatesAgree(s: State) {
    && (forall id: nat :: id in s.gates <==> id < |s.waits| && s.waits[id].IsPending())
    && (forall id :: id in s.gates ==> s.waits[id].blockNumber > s.blockNumber)
    && (forall id :: 0 <= id < |s.waits| ==> !s.waits[id].gate.isLocked)
    && (s.blockNumber == 0 || s.blockNumber in s.observed)
  }

  ghost predicate ReachedSometime(s: State, blockNumber: int) {
    exists seen :: seen in s.observed && seen >= blockNumber
  }

  /** For every wait that returned, the index had answered with its block or a later one; block 0 needs no answer. */
  ghost predicate ReturnsAreJustified(s: State) {
    forall id :: 0 <= id < |s.waits| && s.waits[id].HasReturned() ==>
      s.waits[id].blockNumber <= 0 || ReachedSometime(s, s.waits[id].blockNumber)
  }

  lemma StepKeeps(s: State, e: Event)
    requires Enabled(s, e) && GatesAgree(s) && ReturnsAreJustified(s)
    ensures GatesAgree(Step(s, e)) && ReturnsAreJustified(Step(s, e))
    ensures (s.gates != {} ==> SomePollerAlive(s)) && !e.RequestFails? ==>
              (Step(s, e).gates != {} ==> SomePollerAlive(Step(s, e)))
  {
    var next := Step(s, e);
    forall id | 0 <= id < |next.waits| && next.waits[id].HasReturned()
      ensures next.waits[id].blockNumber <= 0 || ReachedSometime(next, next.waits[id].blockNumber)
    {
      if next.waits[id].blockNumber > 0 {
        if id < |s.waits| && s.waits[id].HasReturned() {
          var seen :| seen in s.observed && seen >= s.waits[id].blockNumber;
          assert seen in next.observed;
        } else {
          assert next.blockNumber in next.observed;
        }
      }
    }
  }

  /**
   Over every run: a waiting gate is closed and wants more than the last index, a wait returns only
   after its block was reached, and absent failed requests some poller is alive while a gate waits.
   */
  lemma {:induction false} WaitsAreSound(events: seq<Event>)
    requires IsRun(events)
    ensures GatesAgree(Run(events)) && ReturnsAreJustified(Run(events))
    ensures RequestFails !in events && Run(events).gates != {} ==> SomePollerAlive(Run(events))
  {
    if events != [] {
      var n := |events| - 1;
      WaitsAreSound(events[..n]);
      StepKeeps(Run(events[..n]), events[n]);
      assert events == events[..n] + [events[n]];
    }
  }

  /** A new answer lets return every wait in the set that it reaches; every other one goes on waiting, and no other wait changes. */
  lemma AnswerReturnsReached(s: State, blockNumber: int)
    requires GatesAgree(s) && s.requesting > 0 && blockNumber != s.blockNumber
    ensures var next := PollAnswered(s, blockNumber);
            && |next.waits| == |s.waits|
            && (forall id :: id in s.gates ==>
                  if s.waits[id].blockNumber <= blockNumber then next.waits[id].HasReturned() && id !in next.gates
                  else next.waits[id].IsPending() && id in next.gates)
            && forall id :: 0 <= id < |s.waits| && id !in s.gates ==> next.waits[id] == s.waits[id]
  {
  }

  /** An answer at or above every wanted block lets every wait return and ends the poller that got it. */
  lemma CaughtUp(s: State, blockNumber: int)
    requires GatesAgree(s) && s.requesting > 0
    requires blockNumber != s.blockNumber && forall id :: id in s.gates ==> s.waits[id].blockNumber <= blockNumber
    ensures var next := PollAnswered(s, blockNumber);
            && next.gates == {} && next.sleeping == s.sleeping && next.requesting == s.requesting - 1
            && (forall id :: 0 <= id < |next.waits| ==> !next.waits[id].IsPending())
            && forall id :: id in s.gates ==> next.waits[id].HasReturned()
  {
    AnswerReturnsReached(s, blockNumber);
  }

  /** Pollers are conserved: each event starts or ends at most one, and moves at most one between asking and sleeping. */
  lemma PollersMove(s: State, e: Event)
    requires Enabled(s, e)
    ensures var (next, pollers) := (Step(s, e), s.requesting + s.sleeping);
            var starts := e.StartWait? && e.blockNumber > s.blockNumber && s.gates == {};
            var ends := e.RequestFails? || (e.Answer? && next.gates == {}) || (e.WakeUp? && s.gates == {});
            && next.requesting + next.sleeping == pollers + (if starts then 1 else 0) - (if ends then 1 else 0)
            && (e.StartWait? || e.GiveUp? || e.RequestFails? ==> next.sleeping == s.sleeping)
            && (e.Answer? ==> next.requesting == s.requesting - 1)
            && (e.WakeUp? ==> next.sleeping == s.sleeping - 1)
  {
    if e.StartWait? && e.blockNumber > s.blockNumber {
      assert |s.waits| in Step(s, e).gates;
    }
  }

  ghost function LastAnswer(events: seq<Event>): int {
    if events == [] then 0
    else if events[|events| - 1].Answer? then events[|events| - 1].blockNumber
    else LastAnswer(events[..|events| - 1])
  }

  /** The index is what the last answer said. */
  lemma {:induction false} IndexIsLastAnswer(events: seq<Event>)
    requires IsRun(events)
    ensures Run(events).blockNumber == LastAnswer(events)
    decreases |events|
  {
    if events != [] {
      IndexIsLastAnswer(events[..|events| - 1]);
    }
  }

  // ----- When a wait returns -----

  lemma RunEnds(events: seq<Event>)
    requires IsRun(events) && events != []
    ensures var earlier := events[..|events| - 1];
            && events == earlier + [events[|events| - 1]] && IsRun(earlier)
            && |Run(earlier).waits| <= |Run(events).waits| <= |Run(earlier).waits| + 1
            && forall id :: 0 <= id < |Run(earlier).waits| ==> Run(events).waits[id].blockNumber == Run(earlier).waits[id].blockNumber
  {
  }

  lemma StepTimesOut(s: State, e: Event, id: nat)
    requires Enabled(s, e) && id < |Step(s, e).waits|
    ensures |s.waits| <= |Step(s, e).waits|
    ensures Step(s, e).waits[id].timedOut <==> (id < |s.waits| && s.waits[id].timedOut) || e == GiveUp(id)
  {
  }

  /** A wait is given up exactly when the run says so. */
  lemma {:induction false} TimedOutIffGivenUp(events: seq<Event>, id: nat)
    requires IsRun(events) && id < |Run(events).waits|
    ensures Run(events).waits[id].timedOut <==> GiveUp(id) in events
  {
    if events != [] {
      var (earlier, e) := (events[..|events| - 1], events[|events| - 1]);
      assert GiveUp(id) in events <==> GiveUp(id) in earlier || e == GiveUp(id) by {
        assert events == earlier + [e];
      }
      StepTimesOut(Run(earlier), e, id);
      if id < |Run(earlier).waits| {
        TimedOutIffGivenUp(earlier, id);
      } else {
        NotGivenUp(earlier, id);
      }
    }
  }

  lemma {:induction false} NotGivenUp(events: seq<Event>, id: nat)
    requires IsRun(events) && id >= |Run(events).waits|
    ensures GiveUp(id) !in events
  {
    if events != [] {
      RunEnds(events);
      NotGivenUp(events[..|events| - 1], id);
    }
  }

  /** After `j` events the wait was there, not given up, and the index had its block. */
  ghost predicate IsReachedAt(events: seq<Event>, id: nat, j: nat)
    requires IsRun(events)
  {
    && j <= |events| && IsRun(events[..j]) && GiveUp(id) !in events[..j]
    && id < |Run(events[..j]).waits| && Run(events[..j]).waits[id].blockNumber <= Run(events[..j]).blockNumber
  }

  ghost predicate IsReached(events: seq<Event>, id: nat)
    requires IsRun(events)
  {
    exists j: nat :: IsReachedAt(events, id, j)
  }

  lemma ReachedNext(events: seq<Event>, id: nat)
    requires IsRun(events) && events != []
    ensures IsRun(events[..|events| - 1])
    ensures IsReached(events, id) <==> IsReached(events[..|events| - 1], id) || IsReachedAt(events, id, |events|)
  {
    var earlier := events[..|events| - 1];
    assert forall j :: 0 <= j <= |earlier| ==> events[..j] == earlier[..j];
    if j: nat :| IsReachedAt(events, id, j) && j < |events| {
      assert IsReachedAt(earlier, id, j);
    }
    if j: nat :| IsReachedAt(earlier, id, j) {
      assert IsReachedAt(events, id, j);
    }
  }

  lemma {:induction false} NotReachedBefore(events: seq<Event>, id: nat)
    requires IsRun(events) && id >= |Run(events).waits|
    ensures !IsReached(events, id)
  {
    if events != [] {
      RunEnds(events);
      ReachedNext(events, id);
      NotReachedBefore(events[..|events| - 1], id);
      assert events[..|events|] == events;
    }
  }

  /** Over every run, a wait has returned exactly when the index had its block at some time before it was given up. */
  lemma {:induction false} ReturnsIffReached(events: seq<Event>, id: nat)
    requires IsRun(events) && id < |Run(events).waits|
    ensures Run(events).waits[id].HasReturned() <==> IsReached(events, id)
  {
    if events != [] {
      var (earlier, e) := (events[..|events| - 1], events[|events| - 1]);
      RunEnds(events);
      ReachedNext(events, id);
      WaitsAreSound(earlier);
      WaitsAreSound(events);
      TimedOutIffGivenUp(events, id);
      assert events[..|events|] == events;
      if id < |Run(earlier).waits| {
        ReturnsIffReached(earlier, id);
      } else {
        NotReachedBefore(earlier, id);
      }
    }
  }

  /** A failed request leaves gates that nobody polls for exactly when its poller was the last one and a gate is waiting. */
  lemma FailureStrandsIffLastPoller(s: State)
    requires s.requesting > 0
    ensures var next := PollFailed(s);
            next.gates != {} && !SomePollerAlive(next) <==> s.gates != {} && s.requesting + s.sleeping == 1
  {
  }

  predicate IsPollerStep(e: Event) {
    e.Answer? || e.WakeUp? || e.RequestFails?
  }

  /** Gates without a poller stay so: no later wait starts one, and no wait returns, until all of them have timed out. */
  lemma StrandedUntilEmptied(s: State, e: Event)
    requires GatesAgree(s) && Enabled(s, e) && s.gates != {} && !SomePollerAlive(s)
    ensures !IsPollerStep(e) && !SomePollerAlive(Step(s, e))
    ensures forall id :: id in s.gates ==> !Step(s, e).waits[id].HasReturned()
    ensures Step(s, e).gates == {} <==> e.GiveUp? && s.gates == {e.id}
  {
    if e.StartWait? && e.blockNumber > s.blockNumber {
      assert |s.waits| in Step(s, e).gates;
    }
  }

  ghost predicate IsStranded(s: State) {
    s.gates != {} && !SomePollerAlive(s)
  }

  lemma RunNext(events: seq<Event>, e: Event)
    requires IsRun(events) && Enabled(Run(events), e)
    ensures IsRun(events + [e]) && Run(events + [e]) == Step(Run(events), e)
  {
    assert (events + [e])[..|events|] == events;
  }

  /** A wait that asks twice: the index is behind at first, the poller sleeps and wakes, and the wait returns. */
  lemma WaitsReturnAfterRetry(blockNumber: int)
    requires blockNumber > 1
    ensures var events := [StartWait(blockNumber), Answer(1), WakeUp, Answer(blockNumber)];
            IsRun(events) && Run(events).waits == [Wait(blockNumber, Gates.NEW_GATE.Close().Open(), false)] && Run(events).gates == {}
  {
    var events := [StartWait(blockNumber), Answer(1), WakeUp, Answer(blockNumber)];
    RunNext([], events[0]);
    assert 0 in Run([] + [events[0]]).gates;
    RunNext([] + [events[0]], events[1]);
    assert 0 in Run([] + [events[0]] + [events[1]]).gates;
    RunNext([] + [events[0]] + [events[1]], events[2]);
    RunNext([] + [events[0]] + [events[1]] + [events[2]], events[3]);
    assert [] + [events[0]] + [events[1]] + [events[2]] + [events[3]] == events;
  }

  /** One wait for any block beyond 0 and one failed request reach it. */
  lemma StrandedIsReached(blockNumber: int)
    requires blockNumber > 0
    ensures IsRun([StartWait(blockNumber), RequestFails]) && IsStranded(Run([StartWait(blockNumber), RequestFails]))
  {
    RunNext([], StartWait(blockNumber));
    RunNext([] + [StartWait(blockNumber)], RequestFails);
    assert [] + [StartWait(blockNumber)] + [RequestFails] == [StartWait(blockNumber), RequestFails];
    assert 0 in Run([StartWait(blockNumber), RequestFails]).gates;
  }

  /** Nothing has happened since `s` but further waits, and of those the ones for a block beyond the index wait too. */
  ghost predicate StaysStranded(s: State, t: State) {
    && IsStranded(t) && t.blockNumber == s.blockNumber && s.gates <= t.gates && |s.waits| <= |t.waits|
    && forall id :: |s.waits| <= id < |t.waits| ==> (t.waits[id].IsPending() <==> t.waits[id].blockNumber > s.blockNumber)
  }

  lemma StaysStrandedNext(s: State, t: State, e: Event)
    requires GatesAgree(t) && StaysStranded(s, t) && Enabled(t, e) && !e.GiveUp?
    ensures StaysStranded(s, Step(t, e))
  {
    StrandedUntilEmptied(t, e);
  }

  /** From there no run gets out without a time-out: whoever waits for a block beyond the index goes on waiting. */
  lemma {:induction false} StrandedUntilTimeOut(events: seq<Event>, later: seq<Event>)
    requires IsRun(events + later) && IsRun(events) && IsStranded(Run(events))
    requires forall e :: e in later ==> !e.GiveUp?
    ensures StaysStranded(Run(events), Run(events + later))
    decreases |later|
  {
    if later == [] {
      assert events + later == events;
    } else {
      var n := |later| - 1;
      assert (events + later)[..|events + later| - 1] == events + later[..n];
      StrandedUntilTimeOut(events, later[..n]);
      WaitsAreSound(events + later[..n]);
      StaysStrandedNext(Run(events), Run(events + later[..n]), later[n]);
    }
  }
}
