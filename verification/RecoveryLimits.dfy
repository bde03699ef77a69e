/** Runs that show where the promises of recovery end: how far each condition of the safety theorem is needed. */
module RecoveryLimits {
  import opened Prelude
  import opened SystemRecovery
  import opened RecoveryRuns
  import opened RecoverySafety

  // ----- Putting runs together -----

  /** `events` lead from `s` to `t`, quietly or not. */
  ghost predicate Leads(c: Config, s: System, events: seq<Event>, t: System, quietly: bool) {
    IsRun(c, s, events) && Run(c, s, events) == t && (quietly ==> IsQuietRun(c, s, events))
  }

  lemma LeadsOn(c: Config, s: System, e: Event, next: System, rest: seq<Event>, t: System, quietly: bool)
    requires Enabled(c, s, e) && Step(c, s, e) == next && (quietly ==> Quiet(s, e))
    requires Leads(c, next, rest, t, quietly)
    ensures Leads(c, s, [e] + rest, t, quietly)
  {
    assert ([e] + rest)[0] == e && ([e] + rest)[1..] == rest;
  }

  lemma {:induction false} LeadsThrough(c: Config, s: System, first: seq<Event>, m: System, second: seq<Event>, t: System, quietly: bool)
    requires Leads(c, s, first, m, quietly) && Leads(c, m, second, t, quietly)
    ensures Leads(c, s, first + second, t, quietly)
    decreases |first|
  {
    if first == [] {
      assert first + second == second;
    } else {
      LeadsThrough(c, Step(c, s, first[0]), first[1..], m, second, t, quietly);
      assert first + second == [first[0]] + (first[1..] + second);
      LeadsOn(c, s, first[0], Step(c, s, first[0]), first[1..] + second, t, quietly);
    }
  }

  ghost predicate Reaches(c: Config, s: System, t: System, quietly: bool) {
    exists events :: Leads(c, s, events, t, quietly)
  }

  lemma ReachesOne(c: Config, s: System, e: Event, t: System, quietly: bool)
    requires Enabled(c, s, e) && Step(c, s, e) == t && (quietly ==> Quiet(s, e))
    ensures Leads(c, s, [e], t, quietly) && Reaches(c, s, t, quietly)
  {
    LeadsOn(c, s, e, t, [], t, quietly);
  }

  lemma ReachesThrough(c: Config, s: System, m: System, t: System, quietly: bool)
    requires Reaches(c, s, m, quietly) && Reaches(c, m, t, quietly)
    ensures Reaches(c, s, t, quietly)
  {
    var first :| Leads(c, s, first, m, quietly);
    var second :| Leads(c, m, second, t, quietly);
    LeadsThrough(c, s, first, m, second, t, quietly);
  }

  /** Quiet runs lead from each state of `path` to the next one. */
  ghost predicate IsPath(c: Config, path: seq<System>) {
    forall j :: 0 <= j < |path| - 1 ==> Reaches(c, path[j], path[j + 1], true)
  }

  lemma {:induction false} PathReaches(c: Config, s: System, path: seq<System>, j: nat)
    requires j < |path| && Reaches(c, s, path[0], true) && IsPath(c, path)
    ensures Reaches(c, s, path[j], true)
  {
    if j > 0 {
      PathReaches(c, s, path, j - 1);
      assert Reaches(c, path[j - 1], path[j - 1 + 1], true);
      ReachesThrough(c, s, path[j - 1], path[j], true);
    }
  }

  // ----- One broker whose responses carry a message each -----

  datatype Times = Times(first: nat, second: nat, third: nat)

  predicate InOrder(w: Times) {
    w.first <= w.second <= w.third <= MAX_SAFE_INTEGER
  }

  function Label(i: nat): (l: string)
    ensures l == [] || l[0] == '1'
  {
    seq(i, _ => '1')
  }

  function First(w: Times, i: nat): Message {
    Message(w.first, Label(i))
  }

  function Second(w: Times): Message {
    Message(w.second, "second")
  }

  function Third(w: Times): Message {
    Message(w.third, "third")
  }

  /** Messages 0 to `n` for the first round, and two more. */
  function Held(w: Times, n: nat): (held: seq<Message>)
    ensures |held| == n + 3 && held[n + 1] == Second(w) && held[n + 2] == Third(w)
    ensures forall i :: 0 <= i <= n ==> held[i] == First(w, i)
  {
    seq(n + 1, i requires i >= 0 => First(w, i)) + [Second(w), Third(w)]
  }

  function World(w: Times, n: nat): Config {
    Config({"b"}, map["b" := Held(w, n)])
  }

  lemma WorldIsValid(w: Times, n: nat)
    requires InOrder(w)
    ensures ValidConfig(World(w, n))
    ensures FirstAt(Held(w, n), 0) == 0 && FirstAt(Held(w, n), w.first) == 0
  {
  }

  function OneRecord(rounds: seq<Round>, request: nat, p: Progress, frames: map<nat, Frame>, made: nat,
                     delivered: set<Message>, info: Info, isReset: bool): System
  {
    System(State(Some(request), map["b" := 0], [p], false), frames, made, delivered, rounds, [info], isReset)
  }

  lemma OneRecordAggregate(st: State, p: Progress)
    requires st.progresses == map["b" := 0] && st.records == [p]
    requires p.timestamp.Some? && p.timestamp.value <= MAX_SAFE_INTEGER
    ensures st.Valid() && st.Record("b") == p
    ensures st.Aggregate() == Summary(p.timestamp, p.isComplete, p.isFulfilled)
  {
    assert st.Record("b") == p;
    assert "b" in st.progresses && st.AllStamped();
    assert st.Timestamps() == {p.timestamp.value};
  }

  /** One step, which is quiet unless it is a message before the reset. */
  ghost predicate Goes(c: Config, s: System, e: Event, t: System) {
    Enabled(c, s, e) && Step(c, s, e) == t
  }

  lemma GoesReaches(c: Config, s: System, e: Event, t: System, quietly: bool)
    requires Goes(c, s, e, t) && (quietly ==> Quiet(s, e))
    ensures Reaches(c, s, t, quietly)
  {
    ReachesOne(c, s, e, t, quietly);
  }

  function UpTo(j: int): set<int> {
    if j < 0 then {} else UpTo(j - 1) + {j}
  }

  function FirstsUpTo(w: Times, j: int): set<Message> {
    if j < 0 then {} else FirstsUpTo(w, j - 1) + {First(w, j)}
  }

  lemma {:induction false} SecondIsNoFirst(w: Times, j: int)
    ensures Second(w) !in FirstsUpTo(w, j)
  {
    if j >= 0 {
      SecondIsNoFirst(w, j - 1);
      assert Second(w).content[0] == 's';
    }
  }

  lemma SecondIsMissing(w: Times, n: nat, s: System)
    requires Second(w) !in s.delivered
    ensures !NothingMissed(World(w, n), s)
    ensures forall t: nat :: t > w.second ==> !NothingMissedBefore(World(w, n), s, t)
  {
    assert World(w, n).held["b"][n + 1] == Second(w);
  }

  // ----- A round that stops short -----

  /** Response `j` carries message `j`; the reply ends after message `n`. */
  function ShortReply(n: nat): Reply {
    Reply(seq(n + 2, j => j), false, 9)
  }

  lemma ShortReplyIsValid(w: Times, n: nat)
    requires InOrder(w)
    ensures ValidReply(Held(w, n), 0, ShortReply(n))
  {
    WorldIsValid(w, n);
  }

  function ShortRound(n: nat): Round {
    Round(0, map["b" := ShortReply(n)])
  }

  function Assigned(n: nat): System {
    System(State(Some(0), map[], [], false), map[], 0, {}, [ShortRound(n)], [], false)
  }

  /** Responses 0 to `j` of the round were finished. */
  function Short(w: Times, n: nat, j: int): System
    requires j >= -1
  {
    OneRecord([ShortRound(n)], 0, Progress(if j < 0 then None else Some(w.first), j, false, false), map[], j + 1,
              FirstsUpTo(w, j), Info("b", 0, UpTo(j), None), true)
  }

  function Handler(w: Times, j: nat): Frame {
    Frame(0, j, [First(w, j)], 0, false)
  }

  function Started(w: Times, n: nat, j: nat): System {
    Short(w, n, j - 1).(frames := map[j := Handler(w, j)], made := j + 1)
  }

  function Stored(w: Times, n: nat, j: nat): System {
    Started(w, n, j).(frames := map[j := Handler(w, j).(stored := true)], delivered := FirstsUpTo(w, j))
  }

  function StampedOnce(w: Times, n: nat, j: nat): System {
    OneRecord([ShortRound(n)], 0, Progress(Some(w.first), j - 1, false, false), map[j := Handler(w, j).(next := 1)], j + 1,
              FirstsUpTo(w, j), Info("b", 0, UpTo(j - 1), None), true)
  }

  lemma AssignGoes(w: Times, n: nat)
    requires InOrder(w)
    ensures Goes(World(w, n), INITIAL, Assign(ShortRound(n).replies), Assigned(n))
  {
    ShortReplyIsValid(w, n);
  }

  lemma ResetFirst(st: State)
    requires st.Valid() && st.progresses == map[] && st.records == []
    ensures st.ResetAll(["b"]) == st.(progresses := map["b" := 0], records := [NEW_PROGRESS])
  {
    assert ["b"][..0] == [];
  }

  lemma ResetGoes(w: Times, n: nat)
    ensures Goes(World(w, n), Assigned(n), Reset(["b"]), Short(w, n, -1))
  {
    ResetFirst(Assigned(n).st);
    assert NewInfos(["b"], 0) == [Info("b", 0, {}, None)];
  }

  lemma RequestReaches(w: Times, n: nat)
    requires InOrder(w)
    ensures Reaches(World(w, n), INITIAL, Short(w, n, -1), true)
  {
    var c := World(w, n);
    AssignGoes(w, n);
    GoesReaches(c, INITIAL, Assign(ShortRound(n).replies), Assigned(n), true);
    ResetGoes(w, n);
    GoesReaches(c, Assigned(n), Reset(["b"]), Short(w, n, -1), true);
    ReachesThrough(c, INITIAL, Assigned(n), Short(w, n, -1), true);
  }

  lemma ArriveGoes(w: Times, n: nat, j: nat)
    requires InOrder(w) && j <= n
    ensures Goes(World(w, n), Short(w, n, j - 1), Arrive("b", 0, j), Started(w, n, j))
  {
    ShortReplyIsValid(w, n);
    ArriveAtRecord(World(w, n), Short(w, n, j - 1), "b", 0, j);
    assert Held(w, n)[j..j + 1] == [First(w, j)];
  }

  lemma StoreGoes(w: Times, n: nat, j: nat)
    ensures Goes(World(w, n), Started(w, n, j), Store(j), Stored(w, n, j))
  {
  }

  lemma StampGoes(w: Times, n: nat, j: nat)
    ensures Goes(World(w, n), Stored(w, n, j), Stamp(j), StampedOnce(w, n, j))
  {
  }

  lemma FinishGoes(w: Times, n: nat, j: nat)
    ensures Goes(World(w, n), StampedOnce(w, n, j), Finish(j), Short(w, n, j))
  {
    assert StampedOnce(w, n, j).frames - {j} == map[];
  }

  lemma ResponseReaches(w: Times, n: nat, j: nat)
    requires InOrder(w) && j <= n
    ensures Reaches(World(w, n), Short(w, n, j - 1), Stored(w, n, j), true)
  {
    var c := World(w, n);
    ArriveGoes(w, n, j);
    GoesReaches(c, Short(w, n, j - 1), Arrive("b", 0, j), Started(w, n, j), true);
    StoreGoes(w, n, j);
    GoesReaches(c, Started(w, n, j), Store(j), Stored(w, n, j), true);
    ReachesThrough(c, Short(w, n, j - 1), Started(w, n, j), Stored(w, n, j), true);
  }

  lemma RecordReaches(w: Times, n: nat, j: nat)
    ensures Reaches(World(w, n), Stored(w, n, j), Short(w, n, j), true)
  {
    var c := World(w, n);
    StampGoes(w, n, j);
    GoesReaches(c, Stored(w, n, j), Stamp(j), StampedOnce(w, n, j), true);
    FinishGoes(w, n, j);
    GoesReaches(c, StampedOnce(w, n, j), Finish(j), Short(w, n, j), true);
    ReachesThrough(c, Stored(w, n, j), StampedOnce(w, n, j), Short(w, n, j), true);
  }

  lemma NextReaches(w: Times, n: nat, j: nat)
    requires InOrder(w) && j <= n
    ensures Reaches(World(w, n), Short(w, n, j - 1), Short(w, n, j), true)
  {
    ResponseReaches(w, n, j);
    RecordReaches(w, n, j);
    ReachesThrough(World(w, n), Short(w, n, j - 1), Stored(w, n, j), Short(w, n, j), true);
  }

  function ShortPath(w: Times, n: nat): (path: seq<System>)
    ensures |path| == n + 2 && path[0] == Short(w, n, -1) && path[n + 1] == Short(w, n, n)
  {
    seq(n + 2, j requires 0 <= j < n + 2 => Short(w, n, j - 1))
  }

  lemma ShortPathIsPath(w: Times, n: nat)
    requires InOrder(w)
    ensures IsPath(World(w, n), ShortPath(w, n)) && Reaches(World(w, n), INITIAL, ShortPath(w, n)[0], true)
  {
    RequestReaches(w, n);
    forall j | 0 <= j < n + 1 ensures Reaches(World(w, n), ShortPath(w, n)[j], ShortPath(w, n)[j + 1], true) {
      NextReaches(w, n, j);
    }
  }

  /** Some quiet run ends with any number `n` as `lastSeqNum`. */
  lemma ShortReaches(w: Times, n: nat)
    requires InOrder(w)
    ensures Reaches(World(w, n), INITIAL, Short(w, n, n), true)
  {
    var path := ShortPath(w, n);
    ShortPathIsPath(w, n);
    PathReaches(World(w, n), INITIAL, path, n + 1);
  }

  // ----- Complete but not fulfilled -----

  /** The one response of the round was finished and its completion came, and then a live message. */
  function Unfulfilled(w: Times, delivered: set<Message>): System {
    OneRecord([ShortRound(0)], 0, Progress(Some(w.first), 0, true, false), map[], 1, delivered, Info("b", 0, UpTo(0), Some(1)), true)
  }

  lemma CompleteGoes(w: Times)
    requires InOrder(w)
    ensures Goes(World(w, 0), Short(w, 0, 0), Arrive("b", 0, 1), Unfulfilled(w, FirstsUpTo(w, 0)))
  {
    ShortReplyIsValid(w, 0);
    ArriveAtRecord(World(w, 0), Short(w, 0, 0), "b", 0, 1);
  }

  lemma LiveGoes(w: Times, live: Message)
    ensures Goes(World(w, 0), Unfulfilled(w, FirstsUpTo(w, 0)), Live(live), Unfulfilled(w, FirstsUpTo(w, 0) + {live}))
  {
  }

  lemma CompleteReaches(w: Times)
    requires InOrder(w)
    ensures Reaches(World(w, 0), INITIAL, Unfulfilled(w, FirstsUpTo(w, 0)), true)
  {
    ShortReaches(w, 0);
    CompleteGoes(w);
    GoesReaches(World(w, 0), Short(w, 0, 0), Arrive("b", 0, 1), Unfulfilled(w, FirstsUpTo(w, 0)), true);
    ReachesThrough(World(w, 0), INITIAL, Short(w, 0, 0), Unfulfilled(w, FirstsUpTo(w, 0)), true);
  }

  /** A quiet run into a complete but unfulfilled round, ended by a live message. */
  lemma UnfulfilledSteps(w: Times, live: Message) returns (earlier: seq<Event>)
    requires InOrder(w)
    ensures Leads(World(w, 0), INITIAL, earlier + [Live(live)], Unfulfilled(w, FirstsUpTo(w, 0) + {live}), true)
  {
    var complete, last := Unfulfilled(w, FirstsUpTo(w, 0)), Unfulfilled(w, FirstsUpTo(w, 0) + {live});
    CompleteReaches(w);
    earlier :| Leads(World(w, 0), INITIAL, earlier, complete, true);
    LiveGoes(w, live);
    ReachesOne(World(w, 0), complete, Live(live), last, true);
    LeadsThrough(World(w, 0), INITIAL, earlier, complete, [Live(live)], last, true);
  }

  // ----- Messages before the reset -----

  /** What `RecoveryMissesNothing` promises of the aggregate. */
  ghost predicate IsBelievable(c: Config, s: System) {
    && s.st.Valid()
    && (s.st.Aggregate().isComplete && s.st.Aggregate().isFulfilled ==> NothingMissed(c, s))
    && (s.st.Aggregate().timestamp.Some? ==> NothingMissedBefore(c, s, s.st.Aggregate().timestamp.value))
  }

  /** The last number of the publisher's record, or that it has no record. */
  function LastNumber(st: State, b: Address): Option<int>
    requires st.Valid()
  {
    if b in st.progresses then Some(st.Record(b).lastSeqNum) else None
  }

  /** Message `k` of the new request meets the records before their reset; `last` is what they know of `b`. */
  ghost predicate MeetsOldRecord(c: Config, s: System, b: Address, last: Option<int>, k: nat) {
    && s.st.Valid() && !s.isReset && s.rounds != [] && s.st.requestId == Some(|s.rounds| - 1)
    && LastNumber(s.st, b) == last
    && Enabled(c, s, Arrive(b, |s.rounds| - 1, k))
  }

  /** Quiet runs before and after the one message, from the start to `s` and from its effect to `t`. */
  ghost predicate EarlyRun(c: Config, s: System, b: Address, last: Option<int>, k: nat, t: System) {
    && ValidConfig(c) && Reaches(c, INITIAL, s, true)
    && MeetsOldRecord(c, s, b, last, k)
    && Reaches(c, Step(c, s, Arrive(b, |s.rounds| - 1, k)), t, true)
  }

  /** Whatever happens around one message that comes too early, the aggregate can be believed. */
  ghost predicate EarlyIsSafe(last: Option<int>, k: nat) {
    forall c, s, b, t :: EarlyRun(c, s, b, last, k, t) ==> IsBelievable(c, t)
  }

  lemma ReachesSound(c: Config, s: System, t: System)
    requires ValidConfig(c) && Sound(c, s) && Reaches(c, s, t, true)
    ensures Sound(c, t)
  {
    var events :| Leads(c, s, events, t, true);
    RunSound(c, s, events);
  }

  lemma SoundIsBelievable(c: Config, s: System)
    requires ValidConfig(c) && Sound(c, s)
    ensures IsBelievable(c, s)
  {
    AggregateIsTrue(c, s);
  }

  lemma HarmlessIsSafe(c: Config, s: System, b: Address, last: int, k: nat, t: System)
    requires EarlyRun(c, s, b, Some(last), k, t) && (k == 0 || k - last > 1)
    ensures IsBelievable(c, t)
  {
    ReachesSound(c, INITIAL, s);
    StepSound(c, s, Arrive(b, |s.rounds| - 1, k));
    ReachesSound(c, Step(c, s, Arrive(b, |s.rounds| - 1, k)), t);
    SoundIsBelievable(c, t);
  }

  /** Response `k` of the new round carries the third message; the second one was in the response before it. */
  function LateReply(n: nat, k: nat): Reply {
    Reply(seq(k, j => j) + [n + 2, n + 3], true, 9)
  }

  lemma LateReplyIsValid(w: Times, n: nat, k: nat)
    requires InOrder(w) && 1 <= k <= n + 1
    ensures ValidReply(Held(w, n), w.first, LateReply(n, k))
    ensures |LateReply(n, k).cuts| == k + 2 && LateReply(n, k).cuts[k] == n + 2 && LateReply(n, k).cuts[k + 1] == n + 3
  {
    WorldIsValid(w, n);
  }

  function Rounds(w: Times, n: nat, k: nat): seq<Round> {
    [ShortRound(n), Round(w.first, map["b" := LateReply(n, k)])]
  }

  function Reassigned(w: Times, n: nat, k: nat): System {
    OneRecord(Rounds(w, n, k), 1, Progress(Some(w.first), n, false, false), map[], n + 1, FirstsUpTo(w, n),
              Info("b", 0, UpTo(n), None), false)
  }

  function LateHandler(w: Times, k: nat): Frame {
    Frame(0, k, [Third(w)], 0, false)
  }

  function LateStarted(w: Times, n: nat, k: nat): System {
    Reassigned(w, n, k).(frames := map[n + 1 := LateHandler(w, k)], made := n + 2)
  }

  function LateStored(w: Times, n: nat, k: nat): System {
    LateStarted(w, n, k).(frames := map[n + 1 := LateHandler(w, k).(stored := true)],
                          delivered := FirstsUpTo(w, n) + {Third(w)})
  }

  /** The record says that everything before the third message was recovered. */
  function LateStamped(w: Times, n: nat, k: nat): System {
    OneRecord(Rounds(w, n, k), 1, Progress(Some(w.third), n, false, false), map[n + 1 := LateHandler(w, k).(next := 1)], n + 2,
              FirstsUpTo(w, n) + {Third(w)}, Info("b", 0, UpTo(n), None), false)
  }

  function LateFinished(w: Times, n: nat, k: nat): System {
    OneRecord(Rounds(w, n, k), 1, Progress(Some(w.third), k, false, false), map[], n + 2,
              FirstsUpTo(w, n) + {Third(w)}, Info("b", 0, UpTo(n) + {k}, None), false)
  }

  function LateCompleted(w: Times, n: nat, k: nat): System {
    OneRecord(Rounds(w, n, k), 1, Progress(Some(w.third), k, true, true), map[], n + 2,
              FirstsUpTo(w, n) + {Third(w)}, Info("b", 0, UpTo(n) + {k}, Some(k + 1)), false)
  }

  lemma ReassignGoes(w: Times, n: nat, k: nat)
    requires InOrder(w) && 1 <= k <= n + 1
    ensures Goes(World(w, n), Short(w, n, n), Assign(map["b" := LateReply(n, k)]), Reassigned(w, n, k))
  {
    LateReplyIsValid(w, n, k);
    OneRecordAggregate(Short(w, n, n).st, Short(w, n, n).st.records[0]);
  }

  lemma LateArriveGoes(w: Times, n: nat, k: nat)
    requires InOrder(w) && 1 <= k <= n + 1
    ensures Goes(World(w, n), Reassigned(w, n, k), Arrive("b", 1, k), LateStarted(w, n, k))
  {
    LateReplyIsValid(w, n, k);
    ArriveAtRecord(World(w, n), Reassigned(w, n, k), "b", 1, k);
    assert Held(w, n)[n + 2..n + 3] == [Third(w)];
  }

  lemma LateStoreGoes(w: Times, n: nat, k: nat)
    ensures Goes(World(w, n), LateStarted(w, n, k), Store(n + 1), LateStored(w, n, k))
  {
  }

  lemma LateStampGoes(w: Times, n: nat, k: nat)
    ensures Goes(World(w, n), LateStored(w, n, k), Stamp(n + 1), LateStamped(w, n, k))
  {
  }

  lemma LateFinishGoes(w: Times, n: nat, k: nat)
    ensures Goes(World(w, n), LateStamped(w, n, k), Finish(n + 1), LateFinished(w, n, k))
  {
    assert LateStamped(w, n, k).frames - {n + 1} == map[];
  }

  lemma LateCompleteGoes(w: Times, n: nat, k: nat)
    requires InOrder(w) && 1 <= k <= n + 1
    ensures Goes(World(w, n), LateFinished(w, n, k), Arrive("b", 1, k + 1), LateCompleted(w, n, k))
  {
    LateReplyIsValid(w, n, k);
    ArriveAtRecord(World(w, n), LateFinished(w, n, k), "b", 1, k + 1);
  }

  /** A quiet run goes up to the message that comes too early. */
  lemma BeforeLate(w: Times, n: nat, k: nat)
    requires InOrder(w) && 1 <= k <= n + 1
    ensures Reaches(World(w, n), INITIAL, Reassigned(w, n, k), true)
  {
    var c := World(w, n);
    ShortReaches(w, n);
    ReassignGoes(w, n, k);
    GoesReaches(c, Short(w, n, n), Assign(map["b" := LateReply(n, k)]), Reassigned(w, n, k), true);
    ReachesThrough(c, INITIAL, Short(w, n, n), Reassigned(w, n, k), true);
  }

  lemma LateStamps(w: Times, n: nat, k: nat, quietly: bool)
    ensures Reaches(World(w, n), LateStarted(w, n, k), LateStamped(w, n, k), quietly)
  {
    var c := World(w, n);
    LateStoreGoes(w, n, k);
    GoesReaches(c, LateStarted(w, n, k), Store(n + 1), LateStored(w, n, k), quietly);
    LateStampGoes(w, n, k);
    GoesReaches(c, LateStored(w, n, k), Stamp(n + 1), LateStamped(w, n, k), quietly);
    ReachesThrough(c, LateStarted(w, n, k), LateStored(w, n, k), LateStamped(w, n, k), quietly);
  }

  lemma LateEnds(w: Times, n: nat, k: nat)
    requires InOrder(w) && 1 <= k <= n + 1
    ensures Reaches(World(w, n), LateStamped(w, n, k), LateCompleted(w, n, k), false)
  {
    var c := World(w, n);
    LateFinishGoes(w, n, k);
    GoesReaches(c, LateStamped(w, n, k), Finish(n + 1), LateFinished(w, n, k), false);
    LateCompleteGoes(w, n, k);
    GoesReaches(c, LateFinished(w, n, k), Arrive("b", 1, k + 1), LateCompleted(w, n, k), false);
    ReachesThrough(c, LateStamped(w, n, k), LateFinished(w, n, k), LateCompleted(w, n, k), false);
  }

  lemma ReassignedMeets(w: Times, n: nat, k: nat)
    requires InOrder(w) && 1 <= k <= n + 1
    ensures MeetsOldRecord(World(w, n), Reassigned(w, n, k), "b", Some(n), k)
  {
    LateReplyIsValid(w, n, k);
    OneRecordAggregate(Reassigned(w, n, k).st, Reassigned(w, n, k).st.records[0]);
  }

  lemma SecondIsNotLate(w: Times, n: nat)
    ensures Second(w) !in FirstsUpTo(w, n) + {Third(w)}
  {
    SecondIsNoFirst(w, n);
    assert Second(w).content[0] != Third(w).content[0];
  }

  lemma LateStampedIsUnbelievable(w: Times, n: nat, k: nat)
    requires InOrder(w) && w.second < w.third
    ensures !IsBelievable(World(w, n), LateStamped(w, n, k))
  {
    var t := LateStamped(w, n, k);
    OneRecordAggregate(t.st, t.st.records[0]);
    SecondIsNotLate(w, n);
    SecondIsMissing(w, n, t);
  }

  /** Any later message that the old record lets through: its stamp covers the second message, which is missing. */
  lemma LetThroughIsUnsafe(last: nat, k: nat)
    requires 1 <= k <= last + 1
    ensures !EarlyIsSafe(Some(last), k)
  {
    var w := Times(1, 2, 3);
    BeforeLate(w, last, k);
    WorldIsValid(w, last);
    ReassignedMeets(w, last, k);
    LateArriveGoes(w, last, k);
    LateStamps(w, last, k, true);
    LateStampedIsUnbelievable(w, last, k);
    assert EarlyRun(World(w, last), Reassigned(w, last, k), "b", Some(last), k, LateStamped(w, last, k));
  }

  /** Every such message can go on to an aggregate that is complete and fulfilled although a message was missed. */
  lemma MessageBeforeResetIsUnsafe(w: Times, last: nat, k: nat) returns (s: System, t: System)
    requires InOrder(w) && 1 <= k <= last + 1
    ensures var c := World(w, last);
            && ValidConfig(c) && Reaches(c, INITIAL, s, true) && MeetsOldRecord(c, s, "b", Some(last), k)
            && Reaches(c, Step(c, s, Arrive("b", |s.rounds| - 1, k)), t, false)
            && t.st.Valid() && t.st.Aggregate().isComplete && t.st.Aggregate().isFulfilled && !NothingMissed(c, t)
  {
    s, t := Reassigned(w, last, k), LateCompleted(w, last, k);
    BeforeLate(w, last, k);
    WorldIsValid(w, last);
    ReassignedMeets(w, last, k);
    LateArriveGoes(w, last, k);
    LateStamps(w, last, k, false);
    LateEnds(w, last, k);
    ReachesThrough(World(w, last), LateStarted(w, last, k), LateStamped(w, last, k), t, false);
    OneRecordAggregate(t.st, t.st.records[0]);
    SecondIsNotLate(w, last);
    SecondIsMissing(w, last, t);
  }

  // ----- Publishers without a record -----

  const MISSING := Message(0, "missing")

  function Lone(i: nat): Message {
    Message(1, Label(i))
  }

  /** `count` messages at time 1. */
  function LoneHeld(count: nat): seq<Message> {
    seq(count, i requires i >= 0 => Lone(i))
  }

  /** Two brokers; the one that answers first has nothing before time 1, the other one has. */
  function TwoBrokers(k: nat): Config {
    Config({"a", "b"}, map["a" := LoneHeld(k + 1), "b" := [MISSING]])
  }

  /** Each response carries one message; message `k` of the reply is a response. */
  function TwoReplies(k: nat): map<Address, Reply> {
    map["a" := Reply(seq(k + 2, j => j), true, 9), "b" := Reply([0, 1], true, 9)]
  }

  function TwoAssigned(k: nat): System {
    System(State(Some(0), map[], [], false), map[], 0, {}, [Round(0, TwoReplies(k))], [], false)
  }

  /** The publisher has a record and nothing else happened, but a message too far ahead has asked for a restart. */
  function LoneRecorded(k: nat): System {
    TwoAssigned(k).(st := State(Some(0), map["a" := 0], [NEW_PROGRESS], k > 0), infos := [Info("a", 0, {}, None)])
  }

  const LONE_HANDLER := Frame(0, 0, [Lone(0)], 0, false)

  function LoneStarted(k: nat): System {
    LoneRecorded(k).(frames := map[0 := LONE_HANDLER], made := 1)
  }

  /** After the message: the first one has started its handler, any other was rejected but left a record. */
  function LoneHandled(k: nat): System {
    if k == 0 then LoneStarted(0) else LoneRecorded(k)
  }

  function LoneStored(k: nat): System {
    LoneStarted(k).(frames := map[0 := LONE_HANDLER.(stored := true)], delivered := {Lone(0)})
  }

  function LoneStamped(k: nat): System {
    LoneStored(k).(st := State(Some(0), map["a" := 0], [Progress(Some(1), -1, false, false)], k > 0),
                   frames := map[0 := LONE_HANDLER.(next := 1)])
  }

  lemma TwoBrokersAreValid(k: nat)
    ensures ValidConfig(TwoBrokers(k))
  {
  }

  lemma LoneRepliesAreValid(k: nat)
    ensures ValidReply(LoneHeld(k + 1), 0, TwoReplies(k)["a"]) && ValidReply([MISSING], 0, TwoReplies(k)["b"])
  {
  }

  lemma LoneAssignGoes(k: nat)
    ensures Goes(TwoBrokers(k), INITIAL, Assign(TwoReplies(k)), TwoAssigned(k))
  {
    LoneRepliesAreValid(k);
  }

  lemma LoneAssigns(k: nat)
    ensures Reaches(TwoBrokers(k), INITIAL, TwoAssigned(k), true)
  {
    LoneAssignGoes(k);
    GoesReaches(TwoBrokers(k), INITIAL, Assign(TwoReplies(k)), TwoAssigned(k), true);
  }

  lemma LoneMeets(k: nat)
    ensures MeetsOldRecord(TwoBrokers(k), TwoAssigned(k), "a", None, k)
  {
    LoneRepliesAreValid(k);
  }

  /** Message 0 of the reply is a response with the first message. */
  lemma LoneFirstGoes(k: nat)
    ensures Goes(TwoBrokers(k), LoneRecorded(k), Arrive("a", 0, 0), LoneStarted(k))
  {
    LoneRepliesAreValid(k);
    ArriveAtRecord(TwoBrokers(k), LoneRecorded(k), "a", 0, 0);
    assert LoneHeld(k + 1)[0..1] == [Lone(0)];
  }

  lemma LoneArriveGoes(k: nat)
    ensures Goes(TwoBrokers(k), TwoAssigned(k), Arrive("a", 0, k), LoneHandled(k))
  {
    LoneMeets(k);
    ArriveCases(TwoBrokers(k), TwoAssigned(k), "a", 0, k);
    assert LoneHeld(k + 1)[0..1] == [Lone(0)];
  }

  /** With the record that was left, the first response counts as harmless. */
  lemma LoneStarts(k: nat)
    ensures Reaches(TwoBrokers(k), LoneHandled(k), LoneStarted(k), true)
  {
    if k == 0 {
      assert Leads(TwoBrokers(0), LoneStarted(0), [], LoneStarted(0), true);
    } else {
      LoneFirstGoes(k);
      GoesReaches(TwoBrokers(k), LoneRecorded(k), Arrive("a", 0, 0), LoneStarted(k), true);
    }
  }

  lemma LoneStoreGoes(k: nat)
    ensures Goes(TwoBrokers(k), LoneStarted(k), Store(0), LoneStored(k))
  {
  }

  lemma LoneStampGoes(k: nat)
    ensures Goes(TwoBrokers(k), LoneStored(k), Stamp(0), LoneStamped(k))
  {
  }

  lemma LoneStamps(k: nat)
    ensures Reaches(TwoBrokers(k), LoneStarted(k), LoneStamped(k), true)
  {
    var c := TwoBrokers(k);
    LoneStoreGoes(k);
    GoesReaches(c, LoneStarted(k), Store(0), LoneStored(k), true);
    LoneStampGoes(k);
    GoesReaches(c, LoneStored(k), Stamp(0), LoneStamped(k), true);
    ReachesThrough(c, LoneStarted(k), LoneStored(k), LoneStamped(k), true);
  }

  lemma LoneGoesOn(k: nat)
    ensures Reaches(TwoBrokers(k), LoneHandled(k), LoneStamped(k), true)
  {
    LoneStarts(k);
    LoneStamps(k);
    ReachesThrough(TwoBrokers(k), LoneHandled(k), LoneStarted(k), LoneStamped(k), true);
  }

  lemma LoneRun(k: nat)
    ensures EarlyRun(TwoBrokers(k), TwoAssigned(k), "a", None, k, LoneStamped(k))
  {
    TwoBrokersAreValid(k);
    LoneAssigns(k);
    LoneMeets(k);
    LoneArriveGoes(k);
    LoneGoesOn(k);
  }

  lemma LoneIsUnbelievable(k: nat)
    ensures !IsBelievable(TwoBrokers(k), LoneStamped(k))
  {
    var st := LoneStamped(k).st;
    assert st.Record("a") == st.records[0];
    assert "a" in st.progresses && st.AllStamped();
    assert st.Timestamps() == {1};
    assert TwoBrokers(k).held["b"][0] == MISSING;
  }

  /**
   A message before the first reset comes from a publisher without a record. Whatever its number, the run can go on
   so that the aggregate speaks for that publisher alone, while another broker's earlier message is missing.
   */
  lemma LonePublisherIsUnsafe(k: nat)
    ensures EarlyRun(TwoBrokers(k), TwoAssigned(k), "a", None, k, LoneStamped(k))
    ensures !IsBelievable(TwoBrokers(k), LoneStamped(k)) && !EarlyIsSafe(None, k)
  {
    LoneRun(k);
    LoneIsUnbelievable(k);
  }

  // ----- The exact condition -----

  /**
   A message handled between the new request id and the reset is safe exactly when its publisher has a record and
   it is the first of its reply or more than one ahead of the record's last number, so that it is rejected.
   This is the condition of quiet runs.
   */
  lemma EarlyIsSafeIff(last: Option<int>, k: nat)
    ensures EarlyIsSafe(last, k) <==> last.Some? && (k == 0 || k - last.value > 1)
  {
    if last.None? {
      LonePublisherIsUnsafe(k);
    } else if k == 0 || k - last.value > 1 {
      forall c, s, b, t | EarlyRun(c, s, b, last, k, t) ensures IsBelievable(c, t) {
        HarmlessIsSafe(c, s, b, last.value, k, t);
      }
    } else {
      LetThroughIsUnsafe(last.value, k);
    }
  }
}
