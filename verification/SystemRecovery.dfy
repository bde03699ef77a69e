/** The validator's recovery of system messages: one progress record per broker, round after round. */
module SystemRecovery {
  import opened Prelude

  type Address = string

  datatype Message = Message(timestamp: nat, content: string)

  datatype Progress = Progress(timestamp: Option<nat>, lastSeqNum: int, isComplete: bool, isFulfilled: bool)

  const NEW_PROGRESS := Progress(None, -1, false, false)

  datatype Summary = Summary(timestamp: Option<nat>, isComplete: bool, isFulfilled: bool)

  const NO_SUMMARY := Summary(None, false, false)

  const MAX_SAFE_INTEGER: nat := 9007199254740991

  datatype Content =
    | RecoveryResponse(seqNum: int, payload: seq<Message>)
    | RecoveryComplete(seqNum: int, isFulfilled: bool, publishedAt: nat)

  /**
   A handler of a response that is suspended at an `await`: it keeps the record it was started with,
   has stamped `next` messages, and may have handed on one more that it has not stamped yet.
   */
  datatype Frame = Frame(record: nat, seqNum: int, payload: seq<Message>, next: nat, stored: bool)

  datatype Reaction =
    | Ignored
    | Started(frame: Frame)
    | Restarting(scheduled: bool)
    | Collecting
    | NextRound
    | Stopped

  /**
   The fields of the object. Records are shared by reference, so they are named by their place among
   all records ever made; `progresses` names the current record of each broker. Requests are numbered.
   */
  datatype State = State(
    requestId: Option<nat>,
    progresses: map<Address, nat>,
    records: seq<Progress>,
    isRestarting: bool)
  {
    ghost predicate Valid() {
      forall a :: a in progresses ==> progresses[a] < |records|
    }

    function Record(a: Address): Progress
      requires Valid() && a in progresses
    {
      records[progresses[a]]
    }

    ghost predicate AllStamped() {
      Valid() && progresses != map[] && forall a :: a in progresses ==> Record(a).timestamp.Some?
    }

    ghost function Timestamps(): set<nat>
      requires AllStamped()
    {
      set a | a in progresses :: Record(a).timestamp.value
    }

    /** The least recovered timestamp, and whether every record is complete and fulfilled. */
    ghost function Aggregate(): Summary
      requires Valid()
    {
      if !AllStamped() then NO_SUMMARY
      else Summary(
        Some(Least({MAX_SAFE_INTEGER} + Timestamps())),
        forall a :: a in progresses ==> Record(a).isComplete,
        forall a :: a in progresses ==> Record(a).isFulfilled)
    }

    ghost function From(): nat
      requires Valid()
    {
      Aggregate().timestamp.GetOr(0)
    }

    /** One step of the loop over the broker addresses: a new record that keeps the timestamp of the old one. */
    function ResetOne(a: Address): (s: State)
      requires Valid()
      ensures s.Valid()
    {
      var previous := if a in progresses then Record(a) else NEW_PROGRESS;
      this.(progresses := progresses[a := |records|],
            records := records + [Progress(previous.timestamp, -1, false, false)])
    }

    function ResetAll(addresses: seq<Address>): (s: State)
      requires Valid()
      ensures s.Valid()
    {
      if addresses == [] then this
      else ResetAll(addresses[..|addresses| - 1]).ResetOne(addresses[|addresses| - 1])
    }

    /** The record of a publisher, made on first sight. */
    function WithRecord(a: Address): (s: State)
      requires Valid()
      ensures s.Valid() && a in s.progresses
    {
      if a in progresses then this
      else this.(progresses := progresses[a := |records|], records := records + [NEW_PROGRESS])
    }

    function SetRecord(i: nat, p: Progress): State
      requires i < |records|
    {
      this.(records := records[i := p])
    }

    function Fail(): State {
      this.(isRestarting := true)
    }

    /** What a message does before its handler first awaits anything; stale requests are ignored. */
    ghost function OnMessage(request: nat, publisher: Address, content: Content): (State, Reaction)
      requires Valid()
    {
      if requestId != Some(request) then (this, Ignored)
      else
        var s := WithRecord(publisher);
        var i := s.progresses[publisher];
        if content.seqNum - s.records[i].lastSeqNum > 1 then (s.Fail(), Restarting(!isRestarting))
        else
          match content
          case RecoveryResponse(seqNum, payload) => (s, Started(Frame(i, seqNum, payload, 0, false)))
          case RecoveryComplete(_, isFulfilled, publishedAt) =>
            var done := s.SetRecord(i, Completed(s.records[i], isFulfilled, publishedAt));
            var summary := done.Aggregate();
            (done, if !summary.isComplete then Collecting else if summary.isFulfilled then Stopped else NextRound)
    }
  }

  ghost predicate IsLeast(s: set<nat>, m: nat) {
    m in s && forall x :: x in s ==> m <= x
  }

  lemma LeastExists(s: set<nat>)
    requires s != {}
    ensures exists m :: IsLeast(s, m)
  {
    var x :| x in s;
    assert forall y :: y in s ==> y == x || y in s - {x};
    if s - {x} == {} {
      assert IsLeast(s, x);
    } else {
      LeastExists(s - {x});
      var rest :| IsLeast(s - {x}, rest);
      assert IsLeast(s, if x < rest then x else rest);
    }
  }

  ghost function Least(s: set<nat>): (m: nat)
    requires s != {}
    ensures IsLeast(s, m)
  {
    LeastExists(s);
    var m :| IsLeast(s, m);
    m
  }

  /** A broker that sent nothing gets the time of its completion. */
  function Completed(p: Progress, isFulfilled: bool, publishedAt: nat): Progress {
    Progress(if p.timestamp.None? then Some(publishedAt) else p.timestamp, p.lastSeqNum, true, isFulfilled)
  }

  function Stamped(p: Progress, timestamp: nat): Progress {
    p.(timestamp := Some(timestamp))
  }

  function Finished(p: Progress, seqNum: int): Progress {
    p.(lastSeqNum := seqNum)
  }

  lemma AggregateIgnoresRequest(s: State, requestId: Option<nat>)
    requires s.Valid()
    ensures s.(requestId := requestId).Aggregate() == s.Aggregate()
  {
    var t := s.(requestId := requestId);
    assert forall a :: a in s.progresses ==> t.Record(a) == s.Record(a);
    if s.AllStamped() {
      assert t.Timestamps() == s.Timestamps();
    }
  }

  class Recovery {
    var requestId: Option<nat>
    var progresses: map<Address, nat>
    var records: seq<Progress>
    var isRestarting: bool

    constructor ()
      ensures Model() == State(None, map[], [], false)
    {
      requestId, progresses, records, isRestarting := None, map[], [], false;
    }

    function Model(): State
      reads this
    {
      State(requestId, progresses, records, isRestarting)
    }

    method GetProgress() returns (summary: Summary)
      requires Model().Valid()
      ensures summary == Model().Aggregate()
    {
      if progresses == map[] {
        return NO_SUMMARY;
      }
      var timestamp, isComplete, isFulfilled := MAX_SAFE_INTEGER, true, true;
      var todo := progresses.Keys;
      ghost var seen: set<nat> := {MAX_SAFE_INTEGER};
      while todo != {}
        invariant todo <= progresses.Keys
        invariant forall a :: a in progresses && a !in todo ==> Model().Record(a).timestamp.Some?
        invariant seen == {MAX_SAFE_INTEGER} + set a | a in progresses && a !in todo :: Model().Record(a).timestamp.value
        invariant timestamp in seen && forall t :: t in seen ==> timestamp <= t
        invariant isComplete <==> forall a :: a in progresses && a !in todo ==> Model().Record(a).isComplete
        invariant isFulfilled <==> forall a :: a in progresses && a !in todo ==> Model().Record(a).isFulfilled
      {
        var a :| a in todo;
        todo := todo - {a};
        var p := records[progresses[a]];
        if p.timestamp.None? {
          assert Model().Record(a).timestamp.None?;
          return NO_SUMMARY;
        }
        seen := seen + {p.timestamp.value};
        timestamp := if p.timestamp.value < timestamp then p.timestamp.value else timestamp;
        isComplete := isComplete && p.isComplete;
        isFulfilled := isFulfilled && p.isFulfilled;
      }
      assert seen == {MAX_SAFE_INTEGER} + Model().Timestamps();
      return Summary(Some(timestamp), isComplete, isFulfilled);
    }

    /** The new request goes out under a new id; what it asks for is decided here. */
    method BeginRequest(id: nat) returns (from: nat)
      requires Model().Valid()
      modifies this`requestId
      ensures Model() == old(Model()).(requestId := Some(id))
      ensures from == old(Model()).From()
    {
      AggregateIgnoresRequest(Model(), Some(id));
      requestId := Some(id);
      var summary := GetProgress();
      from := summary.timestamp.GetOr(0);
    }

    /** The endpoint answered with the brokers that will send. */
    method ResetRecords(brokerAddresses: seq<Address>)
      requires Model().Valid()
      modifies this
      ensures Model() == old(Model()).ResetAll(brokerAddresses).(isRestarting := false)
    {
      for i := 0 to |brokerAddresses|
        invariant Model() == old(Model()).ResetAll(brokerAddresses[..i])
      {
        var a := brokerAddresses[i];
        assert brokerAddresses[..i + 1][..i] == brokerAddresses[..i];
        var timestamp := if a in progresses then records[progresses[a]].timestamp else None;
        records := records + [Progress(timestamp, -1, false, false)];
        progresses := progresses[a := |records| - 1];
      }
      assert brokerAddresses[..|brokerAddresses|] == brokerAddresses;
      isRestarting := false;
    }

    method OnRecoveryMessage(request: nat, publisher: Address, content: Content) returns (reaction: Reaction)
      requires Model().Valid()
      modifies this
      ensures Model().Valid() && (Model(), reaction) == old(Model()).OnMessage(request, publisher, content)
    {
      if requestId != Some(request) {
        return Ignored;
      }
      if publisher !in progresses {
        records := records + [NEW_PROGRESS];
        progresses := progresses[publisher := |records| - 1];
      }
      var i := progresses[publisher];
      if content.seqNum - records[i].lastSeqNum > 1 {
        reaction := Restarting(!isRestarting);
        isRestarting := true;
        return;
      }
      if content.RecoveryResponse? {
        return Started(Frame(i, content.seqNum, content.payload, 0, false));
      }
      records := records[i := Completed(records[i], content.isFulfilled, content.publishedAt)];
      var summary := GetProgress();
      if summary.isComplete {
        return if summary.isFulfilled then Stopped else NextRound;
      }
      return Collecting;
    }

    /** A handler goes on after a message was handed to the listener. */
    method StampTimestamp(frame: Frame) returns (next: Frame)
      requires frame.record < |records| && frame.next < |frame.payload|
      modifies this`records
      ensures Model() == old(Model()).SetRecord(frame.record, Stamped(old(records)[frame.record], frame.payload[frame.next].timestamp))
      ensures next == frame.(next := frame.next + 1, stored := false)
    {
      records := records[frame.record := records[frame.record].(timestamp := Some(frame.payload[frame.next].timestamp))];
      next := frame.(next := frame.next + 1, stored := false);
    }

    /** A handler has gone through its payload. */
    method FinishResponse(frame: Frame)
      requires frame.record < |records|
      modifies this`records
      ensures Model() == old(Model()).SetRecord(frame.record, Finished(old(records)[frame.record], frame.seqNum))
    {
      records := records[frame.record := records[frame.record].(lastSeqNum := frame.seqNum)];
    }
  }
}
