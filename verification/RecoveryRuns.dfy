/**
 Runs of recovery against brokers over a network that loses, repeats and reorders messages.
 The set of brokers and what each of them holds in the requested time window are fixed.
 */
module RecoveryRuns {
  import opened Prelude
  import opened SystemRecovery

  /** What each broker holds up to the end of the window, in timestamp order. */
  datatype Config = Config(brokers: set<Address>, held: map<Address, seq<Message>>)

  ghost predicate InTimeOrder(held: seq<Message>) {
    forall i, j :: 0 <= i < j < |held| ==> held[i].timestamp <= held[j].timestamp
  }

  ghost predicate ValidConfig(c: Config) {
    c.held.Keys == c.brokers && forall b :: b in c.brokers ==> InTimeOrder(c.held[b])
  }

  /** The number of messages before time `t`. */
  function FirstAt(held: seq<Message>, t: nat): (p: nat)
    ensures p <= |held|
  {
    if held == [] || held[0].timestamp >= t then 0 else 1 + FirstAt(held[1..], t)
  }

  /**
   A broker's reply to one request: response k carries the messages from `cuts[k]` up to `cuts[k + 1]`,
   and the completion carries the number of responses.
   */
  datatype Reply = Reply(cuts: seq<nat>, isFulfilled: bool, publishedAt: nat)

  /** The reply starts at the requested time and goes on in order; a broker that sends nothing from time 0 holds nothing. */
  ghost predicate ValidReply(held: seq<Message>, from: nat, r: Reply) {
    && r.cuts != []
    && r.cuts[0] == FirstAt(held, from)
    && (forall i, j :: 0 <= i <= j < |r.cuts| ==> r.cuts[i] <= r.cuts[j] <= |held|)
    && (r.isFulfilled ==> r.cuts[|r.cuts| - 1] == |held|)
    && (from == 0 && r.cuts[|r.cuts| - 1] == r.cuts[0] ==> held == [])
  }

  function ContentOf(held: seq<Message>, r: Reply, k: nat): Content
    requires k < |r.cuts|
    requires k + 1 < |r.cuts| ==> r.cuts[k] <= r.cuts[k + 1] <= |held|
  {
    if k + 1 < |r.cuts| then RecoveryResponse(k, held[r.cuts[k]..r.cuts[k + 1]])
    else RecoveryComplete(k, r.isFulfilled, r.publishedAt)
  }

  datatype Round = Round(from: nat, replies: map<Address, Reply>)

  /** The history of a record: whose it is, in which round it was made, and what was finished through it. */
  datatype Info = Info(broker: Address, round: nat, finished: set<int>, completedWith: Option<int>)

  /** `isReset` says whether the records were reset since the last request id was assigned. */
  datatype System = System(
    st: State,
    frames: map<nat, Frame>,
    made: nat,
    delivered: set<Message>,
    rounds: seq<Round>,
    infos: seq<Info>,
    isReset: bool)

  const INITIAL := System(State(None, map[], [], false), map[], 0, {}, [], [], false)

  datatype Event =
    | Assign(replies: map<Address, Reply>)
    | Reset(addresses: seq<Address>)
    | Arrive(broker: Address, round: nat, k: nat)
    | Store(frame: nat)
    | Stamp(frame: nat)
    | Finish(frame: nat)
    | Throw(frame: nat)
    | Live(message: Message)

  ghost predicate Enabled(c: Config, s: System, e: Event) {
    && s.st.Valid() && |s.infos| == |s.st.records|
    && match e
       case Assign(replies) =>
         replies.Keys == c.brokers && forall b :: b in c.brokers ==> b in c.held && ValidReply(c.held[b], s.st.From(), replies[b])
       case Reset(addresses) => s.rounds != [] && (set a | a in addresses) == c.brokers
       case Arrive(b, r, k) =>
         && b in c.brokers && b in c.held && r < |s.rounds| && b in s.rounds[r].replies
         && ValidReply(c.held[b], s.rounds[r].from, s.rounds[r].replies[b])
         && k < |s.rounds[r].replies[b].cuts|
       case Store(f) => f in s.frames && !s.frames[f].stored && s.frames[f].next < |s.frames[f].payload|
       case Stamp(f) =>
         f in s.frames && s.frames[f].stored && s.frames[f].next < |s.frames[f].payload| && s.frames[f].record < |s.st.records|
       case Finish(f) =>
         f in s.frames && !s.frames[f].stored && s.frames[f].next == |s.frames[f].payload| && s.frames[f].record < |s.st.records|
       case Throw(f) => f in s.frames && !s.frames[f].stored
       case Live(_) => true
  }

  function NewInfos(addresses: seq<Address>, round: nat): seq<Info> {
    seq(|addresses|, i requires 0 <= i < |addresses| => Info(addresses[i], round, {}, None))
  }

  /** The publisher has a record. */
  function Seen(s: System, b: Address, r: nat): (t: System)
    requires s.st.Valid() && |s.infos| == |s.st.records|
    ensures t.st.Valid() && |t.infos| == |t.st.records| && b in t.st.progresses
  {
    if b in s.st.progresses then s
    else s.(st := s.st.WithRecord(b), infos := s.infos + [Info(b, r, {}, None)])
  }

  ghost function StepArrive(c: Config, s: System, b: Address, r: nat, k: nat): System
    requires Enabled(c, s, Arrive(b, r, k))
  {
    var (st, reaction) := s.st.OnMessage(r, b, ContentOf(c.held[b], s.rounds[r].replies[b], k));
    var t := Seen(s, b, r);
    var i := t.st.progresses[b];
    match reaction
    case Ignored => s
    case Restarting(_) => t.(st := st)
    case Started(frame) => t.(st := st, frames := t.frames[t.made := frame], made := t.made + 1)
    case _ => t.(st := st, infos := t.infos[i := t.infos[i].(completedWith := Some(k))])
  }

  /** A handler was started on the record of `b`. */
  function Begun(s: System, b: Address, k: int, payload: seq<Message>): System
    requires s.st.Valid() && b in s.st.progresses
  {
    s.(frames := s.frames[s.made := Frame(s.st.progresses[b], k, payload, 0, false)], made := s.made + 1)
  }

  /** The record of `b` was marked complete with number `k`. */
  function Closed(s: System, b: Address, k: int, isFulfilled: bool, publishedAt: nat): System
    requires s.st.Valid() && b in s.st.progresses && |s.infos| == |s.st.records|
  {
    var i := s.st.progresses[b];
    s.(st := s.st.SetRecord(i, Completed(s.st.records[i], isFulfilled, publishedAt)),
       infos := s.infos[i := s.infos[i].(completedWith := Some(k))])
  }

  /** What an arriving message changes: nothing, the restart flag, a new handler, or a completed record. */
  lemma ArriveCases(c: Config, s: System, b: Address, r: nat, k: nat)
    requires Enabled(c, s, Arrive(b, r, k))
    ensures var t := Seen(s, b, r);
            StepArrive(c, s, b, r, k) ==
            if s.st.requestId != Some(r) then s
            else if k - t.st.Record(b).lastSeqNum > 1 then t.(st := t.st.Fail())
            else
              match ContentOf(c.held[b], s.rounds[r].replies[b], k)
              case RecoveryResponse(_, payload) => Begun(t, b, k, payload)
              case RecoveryComplete(_, isFulfilled, publishedAt) => Closed(t, b, k, isFulfilled, publishedAt)
  {
    assert Seen(s, b, r).st == s.st.WithRecord(b);
  }

  ghost function Step(c: Config, s: System, e: Event): System
    requires Enabled(c, s, e)
  {
    match e
    case Assign(replies) =>
      s.(st := s.st.(requestId := Some(|s.rounds|)), rounds := s.rounds + [Round(s.st.From(), replies)], isReset := false)
    case Reset(addresses) =>
      s.(st := s.st.ResetAll(addresses).(isRestarting := false),
         infos := s.infos + NewInfos(addresses, |s.rounds| - 1),
         isReset := true)
    case Arrive(b, r, k) => StepArrive(c, s, b, r, k)
    case Store(f) =>
      var frame := s.frames[f];
      s.(delivered := s.delivered + {frame.payload[frame.next]}, frames := s.frames[f := frame.(stored := true)])
    case Stamp(f) =>
      var frame := s.frames[f];
      s.(st := s.st.SetRecord(frame.record, Stamped(s.st.records[frame.record], frame.payload[frame.next].timestamp)),
         frames := s.frames[f := frame.(next := frame.next + 1, stored := false)])
    case Finish(f) =>
      var frame := s.frames[f];
      s.(st := s.st.SetRecord(frame.record, Finished(s.st.records[frame.record], frame.seqNum)),
         infos := s.infos[frame.record := s.infos[frame.record].(finished := s.infos[frame.record].finished + {frame.seqNum})],
         frames := s.frames - {f})
    case Throw(f) => s.(st := s.st.Fail(), frames := s.frames - {f})
    case Live(m) => s.(delivered := s.delivered + {m})
  }

  ghost predicate IsRun(c: Config, s: System, events: seq<Event>)
    decreases |events|
  {
    events != [] ==> Enabled(c, s, events[0]) && IsRun(c, Step(c, s, events[0]), events[1..])
  }

  ghost function Run(c: Config, s: System, events: seq<Event>): System
    requires IsRun(c, s, events)
    decreases |events|
  {
    if events == [] then s else Run(c, Step(c, s, events[0]), events[1..])
  }

  // ----- Resetting the records -----

  function TimestampOf(st: State, a: Address): Option<nat>
    requires st.Valid()
  {
    if a in st.progresses then st.Record(a).timestamp else None
  }

  /** After a reset every listed broker has a new record that keeps its timestamp; the old records are as they were. */
  ghost predicate IsReset(st: State, addresses: seq<Address>, t: State)
    requires st.Valid()
  {
    && t.Valid() && t.requestId == st.requestId
    && |t.records| == |st.records| + |addresses|
    && (forall i :: 0 <= i < |st.records| ==> t.records[i] == st.records[i])
    && (forall i :: |st.records| <= i < |t.records| ==>
          t.records[i] == Progress(TimestampOf(st, addresses[i - |st.records|]), -1, false, false))
    && (forall a :: a in t.progresses <==> a in st.progresses || a in addresses)
    && (forall a :: a in addresses ==>
          |st.records| <= t.progresses[a] && addresses[t.progresses[a] - |st.records|] == a)
    && (forall a :: a in st.progresses && a !in addresses ==> t.progresses[a] == st.progresses[a])
  }

  lemma ResetOneMeans(st: State, addresses: seq<Address>, t: State, a: Address)
    requires st.Valid() && IsReset(st, addresses, t)
    ensures IsReset(st, addresses + [a], t.ResetOne(a))
  {
    assert TimestampOf(t, a) == TimestampOf(st, a);
    assert forall x :: x in addresses + [a] <==> x in addresses || x == a;
  }

  lemma {:induction false} ResetAllMeans(st: State, addresses: seq<Address>)
    requires st.Valid()
    ensures IsReset(st, addresses, st.ResetAll(addresses))
  {
    if addresses != [] {
      var m := |addresses| - 1;
      ResetAllMeans(st, addresses[..m]);
      ResetOneMeans(st, addresses[..m], st.ResetAll(addresses[..m]), addresses[m]);
      assert addresses == addresses[..m] + [addresses[m]];
    }
  }

  // ----- Sequence numbers, over every run -----

  /** The finished sequence numbers have no hole, and `lastSeqNum` is one of them or -1. */
  ghost predicate Unbroken(finished: set<int>, lastSeqNum: int) {
    && (forall k :: k in finished <==> 0 <= k < |finished|)
    && -1 <= lastSeqNum < |finished|
  }

  ghost predicate RecordNumbers(s: System, i: nat)
    requires i < |s.infos| && i < |s.st.records|
  {
    && Unbroken(s.infos[i].finished, s.st.records[i].lastSeqNum)
    && (s.st.records[i].isComplete <==> s.infos[i].completedWith.Some?)
    && (s.infos[i].completedWith.Some? ==> s.infos[i].completedWith.value <= |s.infos[i].finished|)
  }

  ghost predicate FrameNumbers(s: System, frame: Frame) {
    frame.record < |s.infos| && 0 <= frame.seqNum <= |s.infos[frame.record].finished|
  }

  ghost predicate NumbersAgree(s: System) {
    && s.st.Valid()
    && |s.infos| == |s.st.records|
    && (forall i :: 0 <= i < |s.infos| ==> RecordNumbers(s, i))
    && (forall f :: f in s.frames ==> FrameNumbers(s, s.frames[f]))
  }

  lemma FinishedGrows(finished: set<int>, k: int, lastSeqNum: int)
    requires Unbroken(finished, lastSeqNum) && 0 <= k <= |finished|
    ensures Unbroken(finished + {k}, k) && |finished + {k}| >= |finished|
  {
    if k in finished {
      assert finished + {k} == finished;
    }
  }

  /** Nothing that counts for the numbers of the old records and frames has changed. */
  ghost predicate SameNumbers(s: System, t: System) {
    && |s.infos| == |s.st.records| <= |t.infos| == |t.st.records|
    && forall i :: 0 <= i < |s.infos| ==>
         t.infos[i] == s.infos[i]
         && t.st.records[i].lastSeqNum == s.st.records[i].lastSeqNum
         && t.st.records[i].isComplete == s.st.records[i].isComplete
  }

  lemma OldNumbersKept(s: System, t: System)
    requires NumbersAgree(s) && SameNumbers(s, t)
    ensures forall i :: 0 <= i < |s.infos| ==> RecordNumbers(t, i)
    ensures forall f :: f in s.frames ==> FrameNumbers(t, s.frames[f])
  {
    forall i | 0 <= i < |s.infos| ensures RecordNumbers(t, i) {
      assert RecordNumbers(s, i);
    }
    forall f | f in s.frames ensures FrameNumbers(t, s.frames[f]) {
      assert FrameNumbers(s, s.frames[f]);
    }
  }

  lemma ResetNumbers(c: Config, s: System, addresses: seq<Address>)
    requires NumbersAgree(s) && Enabled(c, s, Reset(addresses))
    ensures NumbersAgree(Step(c, s, Reset(addresses)))
  {
    var t := Step(c, s, Reset(addresses));
    ResetAllMeans(s.st, addresses);
    OldNumbersKept(s, t);
    forall i | |s.infos| <= i < |t.infos| ensures RecordNumbers(t, i) {
      assert t.infos[i].finished == {};
    }
  }

  lemma FinishNumbers(c: Config, s: System, f: nat)
    requires NumbersAgree(s) && Enabled(c, s, Finish(f))
    ensures NumbersAgree(Step(c, s, Finish(f)))
  {
    var frame := s.frames[f];
    var t := Step(c, s, Finish(f));
    assert FrameNumbers(s, frame) && RecordNumbers(s, frame.record);
    FinishedGrows(s.infos[frame.record].finished, frame.seqNum, s.st.records[frame.record].lastSeqNum);
    forall i | 0 <= i < |t.infos| ensures RecordNumbers(t, i) {
      assert RecordNumbers(s, i);
    }
    forall g | g in t.frames ensures FrameNumbers(t, t.frames[g]) {
      assert FrameNumbers(s, s.frames[g]);
    }
  }

  lemma SeenNumbers(s: System, b: Address, r: nat)
    requires NumbersAgree(s)
    ensures NumbersAgree(Seen(s, b, r))
  {
    var t := Seen(s, b, r);
    OldNumbersKept(s, t);
    forall i | |s.infos| <= i < |t.infos| ensures RecordNumbers(t, i) {
      assert t.infos[i].finished == {};
    }
  }

  lemma BegunNumbers(s: System, b: Address, k: int, payload: seq<Message>)
    requires NumbersAgree(s) && b in s.st.progresses && 0 <= k
    requires k - s.st.Record(b).lastSeqNum <= 1
    ensures NumbersAgree(Begun(s, b, k, payload))
  {
    var t := Begun(s, b, k, payload);
    OldNumbersKept(s, t);
    assert RecordNumbers(s, s.st.progresses[b]);
    assert FrameNumbers(t, t.frames[s.made]);
    forall f | f in t.frames ensures FrameNumbers(t, t.frames[f]) {
      assert f != s.made ==> FrameNumbers(t, s.frames[f]);
    }
  }

  lemma ClosedNumbers(s: System, b: Address, k: int, isFulfilled: bool, publishedAt: nat)
    requires NumbersAgree(s) && b in s.st.progresses
    requires k - s.st.Record(b).lastSeqNum <= 1
    ensures NumbersAgree(Closed(s, b, k, isFulfilled, publishedAt))
  {
    var t := Closed(s, b, k, isFulfilled, publishedAt);
    forall i | 0 <= i < |t.infos| ensures RecordNumbers(t, i) {
      assert RecordNumbers(s, i);
    }
    forall f | f in t.frames ensures FrameNumbers(t, t.frames[f]) {
      assert FrameNumbers(s, s.frames[f]);
    }
  }

  lemma ArriveNumbers(c: Config, s: System, b: Address, r: nat, k: nat)
    requires NumbersAgree(s) && Enabled(c, s, Arrive(b, r, k))
    ensures NumbersAgree(StepArrive(c, s, b, r, k))
  {
    ArriveCases(c, s, b, r, k);
    SeenNumbers(s, b, r);
    var t := Seen(s, b, r);
    if s.st.requestId == Some(r) {
      if k - t.st.Record(b).lastSeqNum > 1 {
        OldNumbersKept(t, t.(st := t.st.Fail()));
      } else {
        match ContentOf(c.held[b], s.rounds[r].replies[b], k)
        case RecoveryResponse(_, payload) => BegunNumbers(t, b, k, payload);
        case RecoveryComplete(_, isFulfilled, publishedAt) => ClosedNumbers(t, b, k, isFulfilled, publishedAt);
      }
    }
  }

  lemma StepNumbers(c: Config, s: System, e: Event)
    requires NumbersAgree(s) && Enabled(c, s, e)
    ensures NumbersAgree(Step(c, s, e))
  {
    match e
    case Reset(addresses) => ResetNumbers(c, s, addresses);
    case Finish(f) => FinishNumbers(c, s, f);
    case Arrive(b, r, k) => ArriveNumbers(c, s, b, r, k);
    case _ =>
      var t := Step(c, s, e);
      OldNumbersKept(s, t);
      forall f | f in t.frames ensures FrameNumbers(t, t.frames[f]) {
        assert FrameNumbers(t, s.frames[f]);
      }
  }

  lemma {:induction false} RunNumbers(c: Config, s: System, events: seq<Event>)
    requires NumbersAgree(s) && IsRun(c, s, events)
    ensures NumbersAgree(Run(c, s, events))
    decreases |events|
  {
    if events != [] {
      StepNumbers(c, s, events[0]);
      RunNumbers(c, Step(c, s, events[0]), events[1..]);
    }
  }

  /**
   Over every run, whatever is repeated, overlaps or goes stale: the numbers finished through one
   record are 0..m without a hole, `lastSeqNum` is at most m, and a record is complete with number c
   only if responses 0..c-1 were all finished through it.
   */
  lemma SequenceNumbersUnbroken(c: Config, events: seq<Event>, i: nat)
    requires IsRun(c, INITIAL, events) && i < |Run(c, INITIAL, events).infos|
    ensures var s := Run(c, INITIAL, events);
            && i < |s.st.records|
            && Unbroken(s.infos[i].finished, s.st.records[i].lastSeqNum)
            && (s.st.records[i].isComplete ==>
                  s.infos[i].completedWith.Some? && forall k :: 0 <= k < s.infos[i].completedWith.value ==> k in s.infos[i].finished)
  {
    RunNumbers(c, INITIAL, events);
    assert RecordNumbers(Run(c, INITIAL, events), i);
  }
}
