/** The bounded asynchronous buffer between one producer and one reader. */
module PushBuffer {
  import opened Prelude
  import opened Gates

  datatype Item<+T> = Value(value: T) | Failure(error: string)

  datatype Outcome = Returned | Threw(error: string)

  /** How the reader's generator leaves off: at a `yield`, at the read gate, or for good. */
  datatype Read<+T> = Yielded(value: T) | Waits(promise: nat) | Finished(outcome: Outcome)

  datatype Buffer<T> = Buffer(items: seq<Item<T>>, size: nat, writeGate: Gate, readGate: Gate, error: Option<string>) {

    predicate IsFull() {
      |items| >= size
    }

    predicate IsWritable() {
      !writeGate.isLocked && !readGate.isLocked
    }

    function UpdateWriteGate(): Buffer<T> {
      this.(writeGate := writeGate.SetOpenState(!IsFull()))
    }

    /** What `push` does before it waits at the write gate; an unwritable buffer takes nothing. */
    function Push(item: Item<T>): Buffer<T> {
      if !IsWritable() then this
      else
        var grown := this.(items := items + [item]).UpdateWriteGate();
        grown.(readGate := grown.readGate.Open())
    }

    function Lock(): Buffer<T> {
      this.(writeGate := writeGate.Lock(), readGate := readGate.Lock())
    }

    function End(err: Option<string>): Buffer<T> {
      (if err.Some? then this.(error := err) else this).Lock()
    }

    function EndWrite(err: Option<string>): Buffer<T> {
      var marked := if err.Some? && error.None? then this.(error := err) else this;
      marked.(readGate := readGate.Open(), writeGate := writeGate.Lock())
    }

    function Finally(): Buffer<T> {
      this.(items := []).Lock()
    }

    /** Leaving the outer loop: a stored error is thrown once. */
    function Exit(): (Buffer<T>, Read<T>) {
      match error
      case None => (Finally(), Finished(Returned))
      case Some(e) => (this.(error := None).Finally(), Finished(Threw(e)))
    }

    /** One stretch of the reader's generator, from its loop head to the next place where it leaves off. */
    function Iterate(): (Buffer<T>, Read<T>) {
      if readGate.isLocked then Exit()
      else if items != [] then
        var rest := this.(items := items[1..]).UpdateWriteGate();
        match items[0]
        case Failure(e) => (rest.Finally(), Finished(Threw(e)))
        case Value(v) => (rest, Yielded(v))
      else if writeGate.isLocked then Exit()
      else
        var closed := this.(readGate := readGate.Close());
        (closed, Waits(closed.readGate.settled))
    }
  }

  /** Both gates start closed. */
  function Empty<T>(size: nat): Buffer<T> {
    Buffer([], size, Gates.NEW_GATE.Close(), Gates.NEW_GATE.Close(), None)
  }

  class PushBuffer<T> {
    var buffer: seq<Item<T>>
    const bufferSize: nat
    const writeGate: GateObject
    const readGate: GateObject
    var error: Option<string>

    ghost predicate Valid()
      reads this
    {
      writeGate != readGate
    }

    function Model(): Buffer<T>
      reads this, writeGate, readGate
    {
      Buffer(buffer, bufferSize, writeGate.Model(), readGate.Model(), error)
    }

    constructor (bufferSize: nat)
      requires bufferSize > 0
      ensures Valid() && fresh(writeGate) && fresh(readGate)
      ensures Model() == Empty(bufferSize)
    {
      this.bufferSize := bufferSize;
      buffer := [];
      error := None;
      writeGate := new GateObject();
      readGate := new GateObject();
      new;
      writeGate.Close();
      readGate.Close();
    }

    method UpdateWriteGate()
      requires Valid()
      modifies writeGate
      ensures Model() == old(Model()).UpdateWriteGate()
    {
      writeGate.SetOpenState(!(|buffer| >= bufferSize));
    }

    /** Returns whether the item was taken and whether the caller must now wait at the write gate. */
    method Push(item: Item<T>) returns (accepted: bool, waits: bool)
      requires Valid()
      modifies this, writeGate, readGate
      ensures Valid() && Model() == old(Model()).Push(item)
      ensures accepted == old(Model()).IsWritable()
      ensures waits == (accepted && Model().writeGate.Check().Some?)
    {
      if writeGate.isLocked || readGate.isLocked {
        return false, false;
      }
      buffer := buffer + [item];
      UpdateWriteGate();
      readGate.Open();
      var promise := writeGate.Check();
      return true, promise.Some?;
    }

    method Lock()
      requires Valid()
      modifies writeGate, readGate
      ensures Model() == old(Model()).Lock()
    {
      writeGate.Lock();
      readGate.Lock();
    }

    method End(err: Option<string>)
      requires Valid()
      modifies this, writeGate, readGate
      ensures Valid() && Model() == old(Model()).End(err)
    {
      if err.Some? {
        error := err;
      }
      Lock();
    }

    method EndWrite(err: Option<string>)
      requires Valid()
      modifies this, writeGate, readGate
      ensures Valid() && Model() == old(Model()).EndWrite(err)
    {
      if err.Some? && error.None? {
        error := err;
      }
      readGate.Open();
      writeGate.Lock();
    }

    method Finally()
      requires Valid()
      modifies this, writeGate, readGate
      ensures Valid() && Model() == old(Model()).Finally()
    {
      buffer := [];
      Lock();
    }

    method Exit() returns (r: Read<T>)
      requires Valid()
      modifies this, writeGate, readGate
      ensures Valid() && (Model(), r) == old(Model()).Exit()
    {
      var e := error;
      if e.Some? {
        error := None;
        r := Finished(Threw(e.value));
      } else {
        r := Finished(Returned);
      }
      Finally();
    }

    /** The generator between two suspensions: flush while there is something, else end, else wait. */
    method Iterate() returns (r: Read<T>)
      requires Valid()
      modifies this, writeGate, readGate
      ensures Valid() && (Model(), r) == old(Model()).Iterate()
    {
      if readGate.isLocked {
        r := Exit();
        return;
      }
      if |buffer| > 0 {
        var v := buffer[0];
        buffer := buffer[1..];
        UpdateWriteGate();
        if v.Failure? {
          Finally();
          return Finished(Threw(v.error));
        }
        return Yielded(v.value);
      }
      if writeGate.isLocked {
        r := Exit();
        return;
      }
      readGate.Close();
      return Waits(readGate.settled);
    }
  }

  // ----- One producer that pulls from a source, and one reader -----

  datatype Producer = Pulling | Blocked(promise: nat) | Ended

  datatype Consumer = Ready | Waiting(promise: nat) | Done(outcome: Outcome)

  /** `source` is what is still to be pulled; `accepted`, `yielded` and the flags record what happened. */
  datatype System<T> = System(
    buffer: Buffer<T>,
    source: seq<Item<T>>,
    producer: Producer,
    consumer: Consumer,
    accepted: seq<Item<T>>,
    yielded: seq<T>,
    tookFailure: bool,
    wasEnded: bool,
    firstError: Option<string>)

  datatype Event =
    | Produce
    | ProducerResumes
    | Consume
    | ConsumerResumes
    | CallEnd(err: Option<string>)
    | CallEndWrite(err: Option<string>)

  predicate Enabled<T>(s: System<T>, e: Event) {
    match e
    case Produce => s.producer.Pulling?
    case ProducerResumes => s.producer.Blocked? && s.buffer.writeGate.IsSettled(s.producer.promise)
    case Consume => s.consumer.Ready?
    case ConsumerResumes => s.consumer.Waiting? && s.buffer.readGate.IsSettled(s.consumer.promise)
    case CallEnd(_) => true
    case CallEndWrite(_) => true
  }

  function EndWriting<T>(s: System<T>, err: Option<string>): System<T> {
    s.(buffer := s.buffer.EndWrite(err),
       firstError := if s.firstError.None? && !s.consumer.Done? then err else s.firstError)
  }

  /** The producer leaves its loop: an error of the source is stored first, then writing ends. */
  function StopPulling<T>(s: System<T>, err: Option<string>): System<T> {
    var caught := if err.Some? then EndWriting(s, err) else s;
    EndWriting(caught, None).(producer := Ended)
  }

  function StepProduce<T>(s: System<T>, ending: Option<string>): System<T> {
    if s.source == [] then StopPulling(s, ending)
    else if !s.buffer.IsWritable() then StopPulling(s.(source := s.source[1..]), None)
    else
      var buffer := s.buffer.Push(s.source[0]);
      s.(buffer := buffer,
         source := s.source[1..],
         accepted := s.accepted + [s.source[0]],
         producer := match buffer.writeGate.Check() case Some(promise) => Blocked(promise) case None => Pulling)
  }

  function StepConsume<T>(s: System<T>): System<T> {
    var (buffer, read) := s.buffer.Iterate();
    match read
    case Yielded(v) => s.(buffer := buffer, yielded := s.yielded + [v])
    case Waits(promise) => s.(buffer := buffer, consumer := Waiting(promise))
    case Finished(outcome) =>
      s.(buffer := buffer, consumer := Done(outcome),
         tookFailure := !s.buffer.readGate.isLocked && s.buffer.items != [])
  }

  /** `ending` is the error with which the source ends, if any. */
  function Step<T>(s: System<T>, ending: Option<string>, e: Event): System<T>
    requires Enabled(s, e)
  {
    match e
    case Produce => StepProduce(s, ending)
    case ProducerResumes => if s.buffer.writeGate.CheckResult() then s.(producer := Pulling) else StopPulling(s, None)
    case Consume => StepConsume(s)
    case ConsumerResumes => s.(consumer := Ready)
    case CallEnd(err) =>
      s.(buffer := s.buffer.End(err), wasEnded := true,
         firstError := if err.Some? && !s.consumer.Done? then err else s.firstError)
    case CallEndWrite(err) => EndWriting(s, err)
  }

  function Start<T>(size: nat, source: seq<Item<T>>): System<T> {
    System(Empty(size), source, Pulling, Ready, [], [], false, false, None)
  }

  ghost predicate IsRun<T>(s: System<T>, ending: Option<string>, events: seq<Event>)
    decreases |events|
  {
    events != [] ==> Enabled(s, events[0]) && IsRun(Step(s, ending, events[0]), ending, events[1..])
  }

  ghost function Run<T>(s: System<T>, ending: Option<string>, events: seq<Event>): System<T>
    requires IsRun(s, ending, events)
    decreases |events|
  {
    if events == [] then s else Run(Step(s, ending, events[0]), ending, events[1..])
  }

  ghost function AsItems<T>(values: seq<T>): seq<Item<T>> {
    seq(|values|, i requires 0 <= i < |values| => Value(values[i]))
  }

  // ----- What every step keeps -----

  /** The gates: a waiting producer means a full buffer, a waiting reader an empty one. */
  ghost predicate GatesAgree<T>(s: System<T>) {
    var b := s.buffer;
    && b.size > 0 && b.writeGate.Valid() && b.readGate.Valid()
    && |b.items| <= b.size
    && (s.producer.Pulling? && b.IsWritable() ==> |b.items| < b.size)
    && (s.producer.Blocked? && !b.writeGate.IsSettled(s.producer.promise) ==>
          b.writeGate.isClosed && s.producer.promise == b.writeGate.settled && |b.items| == b.size)
    && (s.producer.Blocked? && !b.writeGate.isLocked && b.writeGate.IsSettled(s.producer.promise) && b.IsWritable() ==>
          |b.items| < b.size)
    && (s.producer.Ended? ==> b.writeGate.isLocked)
    && (s.consumer.Waiting? && !b.readGate.IsSettled(s.consumer.promise) ==>
          b.readGate.isClosed && s.consumer.promise == b.readGate.settled && b.items == [] && !b.writeGate.isLocked)
    && (s.consumer.Done? ==> b.writeGate.isLocked && b.readGate.isLocked && b.items == [])
    && (b.readGate.isLocked ==> b.writeGate.isLocked && (s.consumer.Done? || s.wasEnded))
  }

  ghost predicate IsPrefix<T>(yielded: seq<T>, accepted: seq<Item<T>>) {
    |yielded| <= |accepted| && AsItems(yielded) == accepted[..|yielded|]
  }

  /**
   The contents: what was yielded, followed by what is buffered, is what was accepted, in order.
   A reader that is done either threw an accepted failure after everything before it, or was cut off
   by `end`, or yielded everything and then threw the error that was stored first, if there was one.
   */
  ghost predicate ContentsAgree<T>(s: System<T>) {
    && IsPrefix(s.yielded, s.accepted)
    && match s.consumer
       case Done(outcome) =>
         if s.tookFailure then
           |s.yielded| < |s.accepted| && outcome.Threw? && s.accepted[|s.yielded|] == Failure(outcome.error)
         else
           && (!s.wasEnded ==> |s.yielded| == |s.accepted|)
           && outcome == if s.firstError.Some? then Threw(s.firstError.value) else Returned
       case _ => !s.tookFailure && s.accepted[|s.yielded|..] == s.buffer.items && s.buffer.error == s.firstError
  }

  lemma EndWritingKeepsGates<T>(s: System<T>, err: Option<string>)
    requires GatesAgree(s)
    ensures GatesAgree(EndWriting(s, err)) && EndWriting(s, err).buffer.writeGate.isLocked
  {
  }

  lemma StopKeepsGates<T>(s: System<T>, err: Option<string>)
    requires GatesAgree(s)
    ensures GatesAgree(StopPulling(s, err))
  {
    var caught := if err.Some? then EndWriting(s, err) else s;
    if err.Some? {
      EndWritingKeepsGates(s, err);
    }
    EndWritingKeepsGates(caught, None);
  }

  lemma PushKeepsGates<T>(s: System<T>, ending: Option<string>)
    requires GatesAgree(s) && s.producer.Pulling? && s.source != [] && s.buffer.IsWritable()
    ensures GatesAgree(StepProduce(s, ending))
  {
  }

  lemma ProduceKeepsGates<T>(s: System<T>, ending: Option<string>)
    requires GatesAgree(s) && s.producer.Pulling?
    ensures GatesAgree(StepProduce(s, ending))
  {
    if s.source == [] {
      StopKeepsGates(s, ending);
    } else if s.buffer.IsWritable() {
      PushKeepsGates(s, ending);
    } else {
      StopKeepsGates(s.(source := s.source[1..]), None);
    }
  }

  lemma ProduceKeepsContents<T>(s: System<T>, ending: Option<string>)
    requires GatesAgree(s) && ContentsAgree(s) && s.producer.Pulling?
    ensures ContentsAgree(StepProduce(s, ending))
  {
    if s.source != [] && s.buffer.IsWritable() {
      var next := StepProduce(s, ending);
      assert next.accepted[..|s.yielded|] == s.accepted[..|s.yielded|];
      assert next.accepted[|s.yielded|..] == s.accepted[|s.yielded|..] + [s.source[0]];
    }
  }

  /** The reader takes an item and goes on, or fails with it. */
  lemma TakeKeepsGates<T>(s: System<T>)
    requires GatesAgree(s) && s.consumer.Ready? && !s.buffer.readGate.isLocked && s.buffer.items != []
    ensures GatesAgree(StepConsume(s))
  {
  }

  /** The reader ends, or waits. */
  lemma LeaveKeepsGates<T>(s: System<T>)
    requires GatesAgree(s) && s.consumer.Ready? && (s.buffer.readGate.isLocked || s.buffer.items == [])
    ensures GatesAgree(StepConsume(s))
  {
  }

  lemma ConsumeKeepsGates<T>(s: System<T>)
    requires GatesAgree(s) && s.consumer.Ready?
    ensures GatesAgree(StepConsume(s))
  {
    if !s.buffer.readGate.isLocked && s.buffer.items != [] {
      TakeKeepsGates(s);
    } else {
      LeaveKeepsGates(s);
    }
  }

  lemma ConsumeKeepsContents<T>(s: System<T>)
    requires GatesAgree(s) && ContentsAgree(s) && s.consumer.Ready?
    ensures ContentsAgree(StepConsume(s))
  {
    if !s.buffer.readGate.isLocked && s.buffer.items != [] {
      var n := |s.yielded|;
      assert s.accepted[n] == s.buffer.items[0];
      assert s.accepted[n + 1..] == s.buffer.items[1..];
      if s.buffer.items[0].Value? {
        assert AsItems(s.yielded + [s.buffer.items[0].value]) == s.accepted[..n + 1];
      }
    }
  }

  lemma ResumeKeeps<T>(s: System<T>, ending: Option<string>, e: Event)
    requires GatesAgree(s) && ContentsAgree(s) && Enabled(s, e) && (e.ProducerResumes? || e.ConsumerResumes?)
    ensures GatesAgree(Step(s, ending, e)) && ContentsAgree(Step(s, ending, e))
  {
  }

  lemma EndKeeps<T>(s: System<T>, ending: Option<string>, e: Event)
    requires GatesAgree(s) && ContentsAgree(s) && (e.CallEnd? || e.CallEndWrite?)
    ensures GatesAgree(Step(s, ending, e)) && ContentsAgree(Step(s, ending, e))
  {
  }

  /** Whatever the interleaving, a step keeps both agreements. */
  lemma StepKeeps<T>(s: System<T>, ending: Option<string>, e: Event)
    requires GatesAgree(s) && ContentsAgree(s) && Enabled(s, e)
    ensures GatesAgree(Step(s, ending, e)) && ContentsAgree(Step(s, ending, e))
  {
    match e
    case Produce =>
      ProduceKeepsGates(s, ending);
      ProduceKeepsContents(s, ending);
    case Consume =>
      ConsumeKeepsGates(s);
      ConsumeKeepsContents(s);
    case ProducerResumes => ResumeKeeps(s, ending, e);
    case ConsumerResumes => ResumeKeeps(s, ending, e);
    case CallEnd(_) => EndKeeps(s, ending, e);
    case CallEndWrite(_) => EndKeeps(s, ending, e);
  }

  lemma {:induction false} RunKeeps<T>(s: System<T>, ending: Option<string>, events: seq<Event>)
    requires GatesAgree(s) && ContentsAgree(s) && IsRun(s, ending, events)
    ensures GatesAgree(Run(s, ending, events)) && ContentsAgree(Run(s, ending, events))
    decreases |events|
  {
    if events != [] {
      StepKeeps(s, ending, events[0]);
      RunKeeps(Step(s, ending, events[0]), ending, events[1..]);
    }
  }

  lemma StartAgrees<T>(size: nat, source: seq<Item<T>>)
    requires size > 0
    ensures GatesAgree(Start(size, source)) && ContentsAgree(Start(size, source))
  {
  }

  // ----- Safety over whole runs, with `end` and `endWrite` called by anyone at any time -----

  /**
   Items yielded followed by items buffered equal items accepted, in order, and the buffer keeps its bound. A reader
   that is done threw the first Error item after everything before it; or it took no Error item and threw the error
   stored first, if any, after everything accepted was yielded, unless someone called `end`.
   */
  lemma BufferIsFaithful<T>(size: nat, source: seq<Item<T>>, ending: Option<string>, events: seq<Event>)
    requires size > 0 && IsRun(Start(size, source), ending, events)
    ensures var s := Run(Start(size, source), ending, events);
            && |s.buffer.items| <= size
            && IsPrefix(s.yielded, s.accepted)
            && match s.consumer
               case Done(outcome) =>
                 if s.tookFailure then
                   |s.yielded| < |s.accepted| && outcome.Threw? && s.accepted[|s.yielded|] == Failure(outcome.error)
                 else
                   && (!s.wasEnded ==> AsItems(s.yielded) == s.accepted)
                   && outcome == if s.firstError.Some? then Threw(s.firstError.value) else Returned
               case _ => AsItems(s.yielded) + s.buffer.items == s.accepted
  {
    StartAgrees(size, source);
    var start := Start(size, source);
    RunKeeps(start, ending, events);
    SizeIsFixed(start, ending, events);
    var s := Run(start, ending, events);
    assert s.accepted == s.accepted[..|s.yielded|] + s.accepted[|s.yielded|..];
  }

  lemma StepKeepsSize<T>(s: System<T>, ending: Option<string>, e: Event)
    requires Enabled(s, e)
    ensures Step(s, ending, e).buffer.size == s.buffer.size
  {
  }

  lemma {:induction false} SizeIsFixed<T>(s: System<T>, ending: Option<string>, events: seq<Event>)
    requires IsRun(s, ending, events)
    ensures Run(s, ending, events).buffer.size == s.buffer.size
    decreases |events|
  {
    if events != [] {
      StepKeepsSize(s, ending, events[0]);
      SizeIsFixed(Step(s, ending, events[0]), ending, events[1..]);
    }
  }

  ghost predicate ProducerWaits<T>(s: System<T>) {
    s.producer.Blocked? && !s.buffer.writeGate.IsSettled(s.producer.promise)
  }

  ghost predicate ReaderWaits<T>(s: System<T>) {
    s.consumer.Waiting? && !s.buffer.readGate.IsSettled(s.consumer.promise)
  }

  /** In every state a run reaches, a waiting producer means a full buffer and a waiting reader an empty one, so both never wait together. */
  lemma NeverBothWait<T>(size: nat, source: seq<Item<T>>, ending: Option<string>, events: seq<Event>)
    requires size > 0 && IsRun(Start(size, source), ending, events)
    ensures var s := Run(Start(size, source), ending, events);
            && (ProducerWaits(s) ==> |s.buffer.items| == size)
            && (ReaderWaits(s) ==> s.buffer.items == [])
            && !(ProducerWaits(s) && ReaderWaits(s))
  {
    StartAgrees(size, source);
    RunKeeps(Start(size, source), ending, events);
    SizeIsFixed(Start(size, source), ending, events);
  }

  lemma StepAfterEndWrite<T>(s: System<T>, ending: Option<string>, e: Event)
    requires GatesAgree(s) && ContentsAgree(s) && Enabled(s, e) && s.buffer.writeGate.isLocked
    ensures Step(s, ending, e).buffer.writeGate.isLocked && Step(s, ending, e).accepted == s.accepted
  {
  }

  lemma {:induction false} NothingAcceptedAfterEndWrite<T>(s: System<T>, ending: Option<string>, events: seq<Event>)
    requires GatesAgree(s) && ContentsAgree(s) && IsRun(s, ending, events) && s.buffer.writeGate.isLocked
    ensures Run(s, ending, events).buffer.writeGate.isLocked && Run(s, ending, events).accepted == s.accepted
    decreases |events|
  {
    if events != [] {
      StepKeeps(s, ending, events[0]);
      StepAfterEndWrite(s, ending, events[0]);
      NothingAcceptedAfterEndWrite(Step(s, ending, events[0]), ending, events[1..]);
    }
  }

  predicate IsReaderStep(e: Event) {
    e.Consume? || e.ConsumerResumes?
  }

  ghost function ReaderSteps(events: seq<Event>): nat {
    if events == [] then 0 else (if IsReaderStep(events[0]) then 1 else 0) + ReaderSteps(events[1..])
  }

  /** The steps a reader still has to go once writing has ended. */
  ghost function ReaderLeft<T>(s: System<T>): (n: nat)
    ensures n == 0 <==> s.consumer.Done?
  {
    match s.consumer
    case Done(_) => 0
    case Ready => |s.buffer.items| + 1
    case Waiting(_) => |s.buffer.items| + 2
  }

  lemma ReaderGetsNearer<T>(s: System<T>, ending: Option<string>, e: Event)
    requires GatesAgree(s) && Enabled(s, e) && s.buffer.writeGate.isLocked
    ensures ReaderLeft(Step(s, ending, e)) + (if IsReaderStep(e) then 1 else 0) <= ReaderLeft(s)
  {
  }

  lemma {:induction false} ReaderComesNearer<T>(s: System<T>, ending: Option<string>, events: seq<Event>)
    requires GatesAgree(s) && ContentsAgree(s) && IsRun(s, ending, events) && s.buffer.writeGate.isLocked
    ensures ReaderSteps(events) + ReaderLeft(Run(s, ending, events)) <= ReaderLeft(s)
    decreases |events|
  {
    if events != [] {
      StepKeeps(s, ending, events[0]);
      StepAfterEndWrite(s, ending, events[0]);
      ReaderGetsNearer(s, ending, events[0]);
      ReaderComesNearer(Step(s, ending, events[0]), ending, events[1..]);
    }
  }

  /**
   After any run that ended writing, the reader yields at most what is buffered, always has a step to take until it
   is done, and is done after two steps more than the items buffered.
   */
  lemma FlushIsBounded<T>(size: nat, source: seq<Item<T>>, ending: Option<string>, before: seq<Event>, events: seq<Event>)
    requires size > 0 && IsRun(Start(size, source), ending, before)
    requires var s := Run(Start(size, source), ending, before);
             s.buffer.writeGate.isLocked && !s.consumer.Done? && IsRun(s, ending, events)
    ensures var s := Run(Start(size, source), ending, before);
            var after := Run(s, ending, events);
            && |after.yielded| <= |s.yielded| + |s.buffer.items|
            && (after.consumer.Done? || Enabled(after, Consume) || Enabled(after, ConsumerResumes))
            && (ReaderSteps(events) >= |s.buffer.items| + 2 ==> after.consumer.Done?)
  {
    var s := Run(Start(size, source), ending, before);
    StartAgrees(size, source);
    RunKeeps(Start(size, source), ending, before);
    RunKeeps(s, ending, events);
    NothingAcceptedAfterEndWrite(s, ending, events);
    ReaderComesNearer(s, ending, events);
  }

  // ----- `pull` alone on the buffer: every run ends, and delivers the source -----

  predicate IsInternal(e: Event) {
    !e.CallEnd? && !e.CallEndWrite?
  }

  ghost predicate InternalRun<T>(s: System<T>, ending: Option<string>, events: seq<Event>) {
    IsRun(s, ending, events) && forall e :: e in events ==> IsInternal(e)
  }

  /** What `pull` has read of `whole` so far, and how it ended. */
  ghost predicate PullAgrees<T>(s: System<T>, whole: seq<Item<T>>, ending: Option<string>) {
    && !s.wasEnded
    && |s.accepted| <= |whole| && s.accepted == whole[..|s.accepted|]
    && if s.consumer.Done? then !s.tookFailure ==> s.accepted == whole && s.firstError == ending
       else
         && s.source == whole[|s.accepted|..]
         && (s.producer.Ended? <==> s.buffer.writeGate.isLocked)
         && if s.producer.Ended? then s.source == [] && s.firstError == ending else s.firstError == None
  }

  lemma PullKeeps<T>(s: System<T>, whole: seq<Item<T>>, ending: Option<string>, e: Event)
    requires GatesAgree(s) && ContentsAgree(s) && Enabled(s, e) && IsInternal(e)
    requires PullAgrees(s, whole, ending)
    ensures PullAgrees(Step(s, ending, e), whole, ending)
  {
    if e.Produce? && !s.consumer.Done? && s.source != [] {
      var n := |s.accepted|;
      assert s.source[0] == whole[n];
      assert whole[..n + 1] == whole[..n] + [whole[n]];
      assert s.source[1..] == whole[n + 1..];
    }
  }

  lemma {:induction false} PullRun<T>(s: System<T>, whole: seq<Item<T>>, ending: Option<string>, events: seq<Event>)
    requires GatesAgree(s) && ContentsAgree(s) && PullAgrees(s, whole, ending) && InternalRun(s, ending, events)
    ensures PullAgrees(Run(s, ending, events), whole, ending)
    decreases |events|
  {
    if events != [] {
      StepKeeps(s, ending, events[0]);
      PullKeeps(s, whole, ending, events[0]);
      PullRun(Step(s, ending, events[0]), whole, ending, events[1..]);
    }
  }

  /** The number of items before the first failure. */
  ghost function FirstFailure<T>(source: seq<Item<T>>): (k: nat)
    ensures k <= |source|
  {
    if source == [] || source[0].Failure? then 0 else 1 + FirstFailure(source[1..])
  }

  lemma {:induction false} FirstFailureIs<T>(source: seq<Item<T>>, k: nat)
    requires k <= |source| && (k < |source| ==> source[k].Failure?)
    requires forall i :: 0 <= i < k ==> source[i].Value?
    ensures FirstFailure(source) == k
  {
    if k > 0 {
      FirstFailureIs(source[1..], k - 1);
    }
  }

  /** What reading the source directly would do. */
  ghost function DirectOutcome<T>(source: seq<Item<T>>, ending: Option<string>): Outcome {
    var k := FirstFailure(source);
    if k < |source| && source[k].Failure? then Threw(source[k].error)
    else if ending.Some? then Threw(ending.value)
    else Returned
  }

  /** A reader that is done has yielded the source up to its first failure and ends as the source does. */
  lemma PullDelivers<T>(size: nat, source: seq<Item<T>>, ending: Option<string>, events: seq<Event>)
    requires size > 0 && InternalRun(Start(size, source), ending, events)
    ensures var s := Run(Start(size, source), ending, events);
            s.consumer.Done? ==>
              && AsItems(s.yielded) == source[..FirstFailure(source)]
              && s.consumer.outcome == DirectOutcome(source, ending)
  {
    var start := Start(size, source);
    StartAgrees(size, source);
    RunKeeps(start, ending, events);
    PullRun(start, source, ending, events);
    var s := Run(start, ending, events);
    if s.consumer.Done? {
      var k := |s.yielded|;
      forall i | 0 <= i < k ensures source[i].Value? {
        assert source[i] == s.accepted[..k][i] == AsItems(s.yielded)[i];
      }
      FirstFailureIs(source, k);
    }
  }

  ghost function ProducerLeft<T>(s: System<T>): nat {
    match s.producer
    case Ended => 0
    case Pulling => 4
    case Blocked(promise) => if s.buffer.writeGate.IsSettled(promise) then 5 else 3
  }

  ghost function ConsumerLeft<T>(s: System<T>): nat {
    match s.consumer
    case Done(_) => 0
    case Ready => 4
    case Waiting(promise) => if s.buffer.readGate.IsSettled(promise) then 5 else 3
  }

  /** Every internal step brings the end nearer. */
  ghost function StepsLeft<T>(s: System<T>): nat {
    6 * |s.source| + 3 * |s.buffer.items| + ProducerLeft(s) + ConsumerLeft(s)
  }

  lemma ProduceGetsFewer<T>(s: System<T>, ending: Option<string>)
    requires GatesAgree(s) && s.producer.Pulling?
    ensures StepsLeft(StepProduce(s, ending)) < StepsLeft(s)
  {
    if s.source != [] && s.buffer.IsWritable() {
      var after := StepProduce(s, ending);
      assert |after.source| == |s.source| - 1;
      assert |after.buffer.items| == |s.buffer.items| + 1;
      assert ConsumerLeft(after) <= ConsumerLeft(s) + 2;
      assert ProducerLeft(after) <= 4;
    } else {
      StopGetsFewer(if s.source != [] then s.(source := s.source[1..]) else s, if s.source != [] then None else ending);
    }
  }

  lemma StopGetsFewer<T>(s: System<T>, err: Option<string>)
    requires GatesAgree(s)
    ensures StepsLeft(StopPulling(s, err)) + ProducerLeft(s) <= StepsLeft(s) + 2
  {
    var after := StopPulling(s, err);
    assert after.buffer.items == s.buffer.items;
    assert ConsumerLeft(after) <= ConsumerLeft(s) + 2;
  }

  lemma ConsumeGetsFewer<T>(s: System<T>)
    requires GatesAgree(s) && s.consumer.Ready?
    ensures StepsLeft(StepConsume(s)) < StepsLeft(s)
  {
    var after := StepConsume(s);
    assert ProducerLeft(after) <= ProducerLeft(s) + 2;
    assert !s.buffer.readGate.isLocked && s.buffer.items != [] ==> |after.buffer.items| < |s.buffer.items|;
  }

  lemma StepsGetFewer<T>(s: System<T>, ending: Option<string>, e: Event)
    requires GatesAgree(s) && Enabled(s, e) && IsInternal(e)
    ensures StepsLeft(Step(s, ending, e)) < StepsLeft(s)
  {
    match e
    case Produce => ProduceGetsFewer(s, ending);
    case ProducerResumes => StopGetsFewer(s, None);
    case Consume => ConsumeGetsFewer(s);
    case _ =>
  }

  lemma {:induction false} RunsAreShort<T>(s: System<T>, ending: Option<string>, events: seq<Event>)
    requires GatesAgree(s) && ContentsAgree(s) && InternalRun(s, ending, events)
    ensures |events| + StepsLeft(Run(s, ending, events)) <= StepsLeft(s)
    decreases |events|
  {
    if events != [] {
      StepKeeps(s, ending, events[0]);
      StepsGetFewer(s, ending, events[0]);
      RunsAreShort(Step(s, ending, events[0]), ending, events[1..]);
    }
  }

  /** Only a system that is finished on both sides has no internal step left. */
  lemma NoDeadlock<T>(s: System<T>)
    requires GatesAgree(s)
    ensures (exists e :: IsInternal(e) && Enabled(s, e)) <==> !(s.producer.Ended? && s.consumer.Done?)
  {
    assert s.producer.Pulling? ==> Enabled(s, Produce);
    assert s.consumer.Ready? ==> Enabled(s, Consume);
    assert s.producer.Blocked? && !ProducerWaits(s) ==> Enabled(s, ProducerResumes);
    assert s.consumer.Waiting? && !ReaderWaits(s) ==> Enabled(s, ConsumerResumes);
  }

  /** No run of `pull` against a reader is longer than its source allows, and one that cannot go on has delivered the source. */
  lemma PullTerminates<T>(size: nat, source: seq<Item<T>>, ending: Option<string>, events: seq<Event>)
    requires size > 0 && InternalRun(Start(size, source), ending, events)
    ensures |events| <= 6 * |source| + 8
    ensures var s := Run(Start(size, source), ending, events);
            (forall e :: IsInternal(e) ==> !Enabled(s, e)) ==>
              s.consumer.Done? && AsItems(s.yielded) == source[..FirstFailure(source)]
  {
    var start := Start(size, source);
    StartAgrees(size, source);
    RunsAreShort(start, ending, events);
    RunKeeps(start, ending, events);
    NoDeadlock(Run(start, ending, events));
    PullDelivers(size, source, ending, events);
  }

  // ----- After writing has ended -----

  /** Writing stays ended, nothing more is accepted, and only a producer between two items takes one more from the source. */
  lemma StepAfterWriting<T>(s: System<T>, ending: Option<string>, e: Event)
    requires s.buffer.writeGate.Valid() && s.buffer.writeGate.isLocked && Enabled(s, e)
    ensures var next := Step(s, ending, e);
            && next.buffer.writeGate.Valid() && next.buffer.writeGate.isLocked && next.accepted == s.accepted
            && (next.source == s.source || (s.producer.Pulling? && s.source != [] && next.source == s.source[1..]))
            && (next.producer == Ended || (next.producer == s.producer && next.source == s.source))
  {
  }

  lemma {:induction false} PullsAtMostOneMore<T>(s: System<T>, ending: Option<string>, events: seq<Event>)
    requires s.buffer.writeGate.Valid() && s.buffer.writeGate.isLocked && IsRun(s, ending, events)
    ensures var end := Run(s, ending, events);
            && end.accepted == s.accepted
            && (end.source == s.source || (s.producer.Pulling? && s.source != [] && end.source == s.source[1..]))
    decreases |events|
  {
    if events != [] {
      StepAfterWriting(s, ending, events[0]);
      PullsAtMostOneMore(Step(s, ending, events[0]), ending, events[1..]);
    }
  }
}
