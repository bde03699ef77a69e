/** Nothing a broker holds is missed: what recovery may conclude from its progress records. */
module RecoverySafety {
  import opened Prelude
  import opened SystemRecovery
  import opened RecoveryRuns

  // ----- Time order -----

  lemma {:induction false} FirstAtMeans(held: seq<Message>, t: nat, q: nat)
    requires InTimeOrder(held) && q < |held|
    ensures q < FirstAt(held, t) <==> held[q].timestamp < t
  {
    if held[0].timestamp < t && q > 0 {
      FirstAtMeans(held[1..], t, q - 1);
    }
  }

  lemma FirstAtGrows(held: seq<Message>, t: nat, u: nat)
    requires InTimeOrder(held) && t <= u
    ensures FirstAt(held, t) <= FirstAt(held, u)
  {
    if FirstAt(held, u) < FirstAt(held, t) {
      FirstAtMeans(held, t, FirstAt(held, u));
      FirstAtMeans(held, u, FirstAt(held, u));
    }
  }

  lemma FirstAtPlace(held: seq<Message>, p: nat)
    requires InTimeOrder(held) && p < |held|
    ensures FirstAt(held, held[p].timestamp) <= p
  {
    FirstAtMeans(held, held[p].timestamp, p);
  }

  /** The first `p` messages a broker holds were handed to the listener. */
  ghost predicate Has(delivered: set<Message>, held: seq<Message>, p: nat) {
    forall q :: 0 <= q < p && q < |held| ==> held[q] in delivered
  }

  // ----- The invariant -----

  /** Everything earlier than what the round asks for was delivered before the round began. */
  ghost predicate RoundOk(c: Config, s: System, r: nat)
    requires r < |s.rounds|
  {
    && s.rounds[r].replies.Keys == c.brokers
    && forall b :: b in c.brokers && b in c.held ==>
         && ValidReply(c.held[b], s.rounds[r].from, s.rounds[r].replies[b])
         && Has(s.delivered, c.held[b], s.rounds[r].replies[b].cuts[0])
  }

  ghost predicate Placed(c: Config, s: System, info: Info) {
    && info.broker in c.brokers && info.broker in c.held
    && info.round < |s.rounds|
    && info.broker in s.rounds[info.round].replies
  }

  function CutsOf(s: System, info: Info): seq<nat>
    requires info.round < |s.rounds| && info.broker in s.rounds[info.round].replies
  {
    s.rounds[info.round].replies[info.broker].cuts
  }

  /** What a record says is true: everything strictly before its timestamp, and everything once it is complete and fulfilled. */
  ghost predicate Truthful(delivered: set<Message>, held: seq<Message>, p: Progress) {
    && (p.timestamp.Some? ==> Has(delivered, held, FirstAt(held, p.timestamp.value)))
    && (p.isComplete && p.isFulfilled ==> Has(delivered, held, |held|))
  }

  /** The responses of a reply cut at `cuts` count: `m` of them were finished through the record, and delivered. */
  ghost predicate Counted(delivered: set<Message>, held: seq<Message>, cuts: seq<nat>, m: nat, p: Progress) {
    && m < |cuts|
    && Has(delivered, held, cuts[m])
    && (p.timestamp.None? ==> cuts[m] == cuts[0])
    && (p.isComplete ==> m == |cuts| - 1)
  }

  /** A suspended handler carries what the broker holds from `start` on, and everything before its place was delivered. */
  ghost predicate Underway(delivered: set<Message>, held: seq<Message>, start: nat, frame: Frame) {
    && start + |frame.payload| <= |held|
    && frame.payload == held[start..start + |frame.payload|]
    && frame.next <= |frame.payload|
    && (frame.stored ==> frame.next < |frame.payload|)
    && Has(delivered, held, start + frame.next + if frame.stored then 1 else 0)
  }

  ghost predicate UnderwaySomewhere(delivered: set<Message>, held: seq<Message>, frame: Frame) {
    exists start: nat :: Underway(delivered, held, start, frame)
  }

  /** The handler carries one of the responses of a reply cut at `cuts`. */
  ghost predicate UnderwayIn(delivered: set<Message>, held: seq<Message>, cuts: seq<nat>, frame: Frame) {
    && 0 <= frame.seqNum < |cuts| - 1
    && Underway(delivered, held, cuts[frame.seqNum], frame)
    && cuts[frame.seqNum] + |frame.payload| == cuts[frame.seqNum + 1]
  }

  /** The record was made for the last round; a record of an earlier round is used until the reset, but no longer counts. */
  predicate IsLast(s: System, info: Info) {
    info.round == |s.rounds| - 1
  }

  ghost predicate RecordOk(c: Config, s: System, info: Info, p: Progress) {
    && Placed(c, s, info)
    && Truthful(s.delivered, c.held[info.broker], p)
    && (IsLast(s, info) ==> Counted(s.delivered, c.held[info.broker], CutsOf(s, info), |info.finished|, p))
  }

  ghost predicate FrameOk(c: Config, s: System, frame: Frame) {
    && frame.record < |s.infos| && frame.record < |s.st.records|
    && var info := s.infos[frame.record];
       && Placed(c, s, info)
       && UnderwaySomewhere(s.delivered, c.held[info.broker], frame)
       && (IsLast(s, info) ==> UnderwayIn(s.delivered, c.held[info.broker], CutsOf(s, info), frame))
       && (frame.next > 0 ==> s.st.records[frame.record].timestamp.Some?)
  }

  ghost predicate RequestOk(c: Config, s: System) {
    && (s.rounds == [] ==> s.st.requestId == None && s.st.progresses == map[])
    && (s.rounds != [] ==> s.st.requestId == Some(|s.rounds| - 1))
    && (s.st.progresses.Keys == {} || s.st.progresses.Keys == c.brokers)
    && (forall b :: b in s.st.progresses ==>
          s.st.progresses[b] < |s.infos| && s.infos[s.st.progresses[b]].broker == b)
    && (s.isReset ==> s.st.progresses.Keys == c.brokers)
    && (forall i :: 0 <= i < |s.infos| ==> s.infos[i].round + (if s.isReset then 1 else 2) <= |s.rounds|)
    && (s.isReset ==> forall b :: b in s.st.progresses ==> s.infos[s.st.progresses[b]].round == |s.rounds| - 1)
    && (s.rounds != [] && !s.st.AllStamped() ==> s.rounds[|s.rounds| - 1].from == 0)
  }

  ghost predicate Sound(c: Config, s: System) {
    && NumbersAgree(s)
    && RequestOk(c, s)
    && (forall r :: 0 <= r < |s.rounds| ==> RoundOk(c, s, r))
    && (forall i {:trigger RecordOk(c, s, s.infos[i], s.st.records[i])} ::
          0 <= i < |s.infos| ==> RecordOk(c, s, s.infos[i], s.st.records[i]))
    && (forall f {:trigger FrameOk(c, s, s.frames[f])} :: f in s.frames ==> FrameOk(c, s, s.frames[f]))
  }

  /**
   A message of a request that is handled before the reset of the records is of no harm when its publisher has a
   record and it is the first of its reply, or so far ahead of the old record that it is rejected.
   */
  ghost predicate IsHarmless(s: System, b: Address, k: nat) {
    s.st.Valid() && b in s.st.progresses && (k == 0 || k - s.st.Record(b).lastSeqNum > 1)
  }

  /** No other message of a request is handled between its id and the reset of the records. */
  ghost predicate Quiet(s: System, e: Event) {
    e.Arrive? && s.st.requestId == Some(e.round) ==> s.isReset || IsHarmless(s, e.broker, e.k)
  }

  // ----- What carries over when more is delivered and more rounds begin -----

  ghost predicate Grows(s: System, t: System) {
    && s.delivered <= t.delivered
    && |s.rounds| <= |t.rounds|
    && forall r :: 0 <= r < |s.rounds| ==> t.rounds[r] == s.rounds[r]
  }

  lemma RoundCarries(c: Config, s: System, t: System, r: nat)
    requires Grows(s, t) && r < |s.rounds| && RoundOk(c, s, r)
    ensures RoundOk(c, t, r)
  {
  }

  lemma RecordCarries(c: Config, s: System, t: System, info: Info, p: Progress)
    requires Grows(s, t) && RecordOk(c, s, info, p)
    ensures RecordOk(c, t, info, p)
  {
  }

  lemma UnderwayCarries(delivered: set<Message>, more: set<Message>, held: seq<Message>, frame: Frame)
    requires delivered <= more && UnderwaySomewhere(delivered, held, frame)
    ensures UnderwaySomewhere(more, held, frame)
  {
    var start: nat :| Underway(delivered, held, start, frame);
    assert Underway(more, held, start, frame);
  }

  lemma FrameCarries(c: Config, s: System, t: System, frame: Frame)
    requires Grows(s, t) && FrameOk(c, s, frame)
    requires frame.record < |t.infos| && frame.record < |t.st.records|
    requires t.infos[frame.record].broker == s.infos[frame.record].broker && t.infos[frame.record].round == s.infos[frame.record].round
    requires s.st.records[frame.record].timestamp.Some? ==> t.st.records[frame.record].timestamp.Some?
    ensures FrameOk(c, t, frame)
  {
    UnderwayCarries(s.delivered, t.delivered, c.held[s.infos[frame.record].broker], frame);
  }

  /** A step within a round: only record `i` and handler `f` may differ, and no stamp is lost. */
  ghost predicate WithinRound(s: System, t: System, i: int, f: int) {
    && s.delivered <= t.delivered && t.rounds == s.rounds && t.isReset == s.isReset
    && t.st.requestId == s.st.requestId && t.st.progresses == s.st.progresses
    && |t.infos| == |t.st.records| == |s.infos| == |s.st.records|
    && (forall j :: 0 <= j < |s.infos| && j != i ==> t.infos[j] == s.infos[j] && t.st.records[j] == s.st.records[j])
    && (forall j :: 0 <= j < |s.infos| ==>
          && t.infos[j].broker == s.infos[j].broker && t.infos[j].round == s.infos[j].round
          && (s.st.records[j].timestamp.Some? ==> t.st.records[j].timestamp.Some?))
    && forall g :: g in t.frames && g != f ==> g in s.frames && t.frames[g] == s.frames[g]
  }

  lemma WithinRoundSound(c: Config, s: System, t: System, i: int, f: int)
    requires Sound(c, s) && NumbersAgree(t) && WithinRound(s, t, i, f)
    requires 0 <= i < |t.infos| ==> RecordOk(c, t, t.infos[i], t.st.records[i])
    requires f in t.frames ==> FrameOk(c, t, t.frames[f])
    ensures Sound(c, t)
  {
    forall r | 0 <= r < |t.rounds| ensures RoundOk(c, t, r) {
      RoundCarries(c, s, t, r);
    }
    forall j | 0 <= j < |t.infos| ensures RecordOk(c, t, t.infos[j], t.st.records[j]) {
      if j != i {
        RecordCarries(c, s, t, s.infos[j], s.st.records[j]);
      }
    }
    forall g | g in t.frames ensures FrameOk(c, t, t.frames[g]) {
      if g != f {
        FrameCarries(c, s, t, s.frames[g]);
      }
    }
    assert s.st.AllStamped() ==> t.st.AllStamped() by {
      if s.st.AllStamped() {
        assert forall a :: a in t.st.progresses ==> s.st.Record(a).timestamp.Some?;
      }
    }
  }

  // ----- One lemma per event -----

  /** The least recovered timestamp lies at or below every record, so what is earlier was delivered. */
  lemma FromIsCovered(c: Config, s: System, b: Address)
    requires ValidConfig(c) && Sound(c, s) && b in c.brokers
    ensures Has(s.delivered, c.held[b], FirstAt(c.held[b], s.st.From()))
  {
    if s.st.AllStamped() {
      var i := s.st.progresses[b];
      var t := s.st.Record(b).timestamp.value;
      assert t in s.st.Timestamps();
      FirstAtGrows(c.held[b], s.st.From(), t);
      assert RecordOk(c, s, s.infos[i], s.st.records[i]);
    } else {
      assert FirstAt(c.held[b], 0) == 0;
    }
  }

  lemma NewRoundOk(c: Config, s: System, t: System, replies: map<Address, Reply>)
    requires ValidConfig(c) && Sound(c, s) && Enabled(c, s, Assign(replies)) && t == Step(c, s, Assign(replies))
    ensures RoundOk(c, t, |s.rounds|)
  {
    forall b | b in c.brokers ensures Has(s.delivered, c.held[b], replies[b].cuts[0]) {
      FromIsCovered(c, s, b);
    }
  }

  lemma AssignRequestOk(c: Config, s: System, t: System, replies: map<Address, Reply>)
    requires RequestOk(c, s) && Enabled(c, s, Assign(replies)) && t == Step(c, s, Assign(replies))
    ensures RequestOk(c, t)
  {
    StampedIgnoresRequest(s.st, t.st.requestId);
  }

  /** Records and handlers stay true when only a round is added. */
  lemma NewRoundSound(c: Config, s: System, t: System)
    requires Sound(c, s) && NumbersAgree(t) && RequestOk(c, t)
    requires t.delivered == s.delivered && t.infos == s.infos && t.st.records == s.st.records && t.frames == s.frames
    requires |t.rounds| == |s.rounds| + 1 && t.rounds[..|s.rounds|] == s.rounds && RoundOk(c, t, |s.rounds|)
    ensures Sound(c, t)
  {
    assert forall r :: 0 <= r < |s.rounds| ==> t.rounds[r] == t.rounds[..|s.rounds|][r];
    forall r | 0 <= r < |s.rounds| ensures RoundOk(c, t, r) {
      RoundCarries(c, s, t, r);
    }
    forall i | 0 <= i < |t.infos| ensures RecordOk(c, t, t.infos[i], t.st.records[i]) {
      RecordCarries(c, s, t, s.infos[i], s.st.records[i]);
    }
    forall f | f in t.frames ensures FrameOk(c, t, t.frames[f]) {
      FrameCarries(c, s, t, s.frames[f]);
    }
  }

  lemma AssignSound(c: Config, s: System, replies: map<Address, Reply>)
    requires ValidConfig(c) && Sound(c, s) && Enabled(c, s, Assign(replies))
    ensures Sound(c, Step(c, s, Assign(replies)))
  {
    var t := Step(c, s, Assign(replies));
    StepNumbers(c, s, Assign(replies));
    NewRoundOk(c, s, t, replies);
    AssignRequestOk(c, s, t, replies);
    NewRoundSound(c, s, t);
  }

  lemma StampedIgnoresRequest(st: State, requestId: Option<nat>)
    requires st.Valid()
    ensures st.(requestId := requestId).AllStamped() <==> st.AllStamped()
  {
    var t := st.(requestId := requestId);
    assert forall a :: a in st.progresses ==> t.Record(a) == st.Record(a);
  }

  /** The new record of a broker is true of the new round before anything has arrived. */
  lemma NewRecordOk(c: Config, s: System, a: Address)
    requires Sound(c, s) && s.rounds != [] && a in c.brokers && a in c.held
    ensures RecordOk(c, s, Info(a, |s.rounds| - 1, {}, None), Progress(TimestampOf(s.st, a), -1, false, false))
  {
    assert RoundOk(c, s, |s.rounds| - 1);
    if a in s.st.progresses {
      assert RecordOk(c, s, s.infos[s.st.progresses[a]], s.st.records[s.st.progresses[a]]);
    }
  }

  /** What a reset does to the system, without the loop that does it. */
  ghost predicate IsResetOf(s: System, addresses: seq<Address>, t: System) {
    && s.st.Valid() && IsReset(s.st, addresses, t.st) && s.rounds != []
    && |s.infos| == |s.st.records| && |t.infos| == |t.st.records|
    && (forall i :: 0 <= i < |s.infos| ==> t.infos[i] == s.infos[i])
    && (forall i :: |s.infos| <= i < |t.infos| ==> t.infos[i] == Info(addresses[i - |s.infos|], |s.rounds| - 1, {}, None))
    && t.rounds == s.rounds && t.delivered == s.delivered && t.frames == s.frames && t.isReset
  }

  lemma StepIsReset(c: Config, s: System, addresses: seq<Address>)
    requires Enabled(c, s, Reset(addresses))
    ensures IsResetOf(s, addresses, Step(c, s, Reset(addresses)))
    ensures forall a :: a in addresses <==> a in c.brokers
  {
    ResetAllMeans(s.st, addresses);
    assert forall a :: a in addresses <==> a in (set x | x in addresses);
  }

  lemma OldRecordOk(c: Config, s: System, addresses: seq<Address>, t: System, i: nat)
    requires IsResetOf(s, addresses, t) && i < |s.infos| && RecordOk(c, s, s.infos[i], s.st.records[i])
    ensures i < |t.infos| && RecordOk(c, t, t.infos[i], t.st.records[i])
  {
    RecordCarries(c, s, t, s.infos[i], s.st.records[i]);
  }

  lemma FreshRecordOk(c: Config, s: System, addresses: seq<Address>, t: System, i: nat)
    requires IsResetOf(s, addresses, t) && |s.infos| <= i < |t.infos|
    requires RecordOk(c, s, t.infos[i], Progress(TimestampOf(s.st, addresses[i - |s.infos|]), -1, false, false))
    ensures RecordOk(c, t, t.infos[i], t.st.records[i])
  {
    RecordCarries(c, s, t, t.infos[i], t.st.records[i]);
  }

  lemma ResetRequestOk(c: Config, s: System, addresses: seq<Address>, t: System)
    requires RequestOk(c, s) && IsResetOf(s, addresses, t)
    requires forall a :: a in addresses <==> a in c.brokers
    ensures RequestOk(c, t)
  {
    assert t.st.progresses.Keys == c.brokers;
    forall b | b in t.st.progresses ensures NewlyRecorded(t, b) {
      NewRecordOf(s, addresses, t, b);
    }
    if s.st.AllStamped() {
      ResetStamps(s.st, addresses, t.st);
    }
  }

  ghost predicate NewlyRecorded(t: System, b: Address) {
    && b in t.st.progresses && t.st.progresses[b] < |t.infos|
    && t.infos[t.st.progresses[b]].broker == b && t.infos[t.st.progresses[b]].round == |t.rounds| - 1
  }

  lemma NewRecordOf(s: System, addresses: seq<Address>, t: System, b: Address)
    requires IsResetOf(s, addresses, t) && b in addresses
    ensures NewlyRecorded(t, b)
  {
  }

  /** A reset neither stamps a record nor loses a stamp. */
  lemma ResetStamps(st: State, addresses: seq<Address>, t: State)
    requires st.Valid() && IsReset(st, addresses, t) && st.AllStamped()
    requires forall a :: a in addresses ==> a in st.progresses
    ensures t.AllStamped()
  {
    forall a | a in t.progresses ensures t.Record(a).timestamp.Some? {
      assert st.Record(a).timestamp.Some?;
      if a in addresses {
        assert t.Record(a).timestamp == TimestampOf(st, a);
      }
    }
    var a :| a in st.progresses;
    assert a in t.progresses;
  }

  lemma ResetRecordsOk(c: Config, s: System, addresses: seq<Address>, t: System)
    requires ValidConfig(c) && Sound(c, s) && IsResetOf(s, addresses, t)
    requires forall a :: a in addresses ==> a in c.brokers
    ensures forall i {:trigger RecordOk(c, t, t.infos[i], t.st.records[i])} ::
              0 <= i < |t.infos| ==> RecordOk(c, t, t.infos[i], t.st.records[i])
  {
    forall i | 0 <= i < |t.infos| ensures RecordOk(c, t, t.infos[i], t.st.records[i]) {
      if i < |s.infos| {
        OldRecordOk(c, s, addresses, t, i);
      } else {
        assert addresses[i - |s.infos|] in addresses;
        NewRecordOk(c, s, addresses[i - |s.infos|]);
        FreshRecordOk(c, s, addresses, t, i);
      }
    }
  }

  lemma ResetSound(c: Config, s: System, addresses: seq<Address>)
    requires ValidConfig(c) && Sound(c, s) && Enabled(c, s, Reset(addresses))
    ensures Sound(c, Step(c, s, Reset(addresses)))
  {
    var t := Step(c, s, Reset(addresses));
    StepNumbers(c, s, Reset(addresses));
    StepIsReset(c, s, addresses);
    ResetRequestOk(c, s, addresses, t);
    ResetRecordsOk(c, s, addresses, t);
    forall r | 0 <= r < |t.rounds| ensures RoundOk(c, t, r) {
      RoundCarries(c, s, t, r);
    }
    forall f | f in t.frames ensures FrameOk(c, t, t.frames[f]) {
      FrameCarries(c, s, t, s.frames[f]);
    }
  }

  lemma StoredUnderway(delivered: set<Message>, held: seq<Message>, start: nat, frame: Frame)
    requires Underway(delivered, held, start, frame) && !frame.stored && frame.next < |frame.payload|
    ensures Underway(delivered + {frame.payload[frame.next]}, held, start, frame.(stored := true))
  {
  }

  lemma StoreGoesOn(c: Config, s: System, t: System, f: nat)
    requires Enabled(c, s, Store(f)) && FrameOk(c, s, s.frames[f]) && t == Step(c, s, Store(f))
    ensures FrameOk(c, t, t.frames[f])
  {
    var frame := s.frames[f];
    var info := s.infos[frame.record];
    var start: nat :| Underway(s.delivered, c.held[info.broker], start, frame);
    StoredUnderway(s.delivered, c.held[info.broker], start, frame);
    if IsLast(s, info) {
      StoredUnderway(s.delivered, c.held[info.broker], CutsOf(s, info)[frame.seqNum], frame);
    }
  }

  lemma StoreWithin(c: Config, s: System, f: nat)
    requires Enabled(c, s, Store(f)) && FrameOk(c, s, s.frames[f])
    ensures WithinRound(s, Step(c, s, Store(f)), -1, f)
    ensures FrameOk(c, Step(c, s, Store(f)), Step(c, s, Store(f)).frames[f])
  {
    StoreGoesOn(c, s, Step(c, s, Store(f)), f);
  }

  lemma StoreSound(c: Config, s: System, f: nat)
    requires ValidConfig(c) && Sound(c, s) && Enabled(c, s, Store(f))
    ensures Sound(c, Step(c, s, Store(f)))
  {
    StepNumbers(c, s, Store(f));
    StoreWithin(c, s, f);
    WithinRoundSound(c, s, Step(c, s, Store(f)), -1, f);
  }

  /** The stamp is the time of a delivered message, and the broker's earlier messages are all before it. */
  lemma StampIsTruthful(delivered: set<Message>, held: seq<Message>, p: Progress, start: nat, frame: Frame)
    requires InTimeOrder(held) && Truthful(delivered, held, p)
    requires Underway(delivered, held, start, frame) && frame.stored
    ensures Truthful(delivered, held, Stamped(p, frame.payload[frame.next].timestamp))
    ensures Underway(delivered, held, start, frame.(next := frame.next + 1, stored := false))
  {
    FirstAtPlace(held, start + frame.next);
  }

  /** A handler whose message was handed on goes on with the next one. */
  lemma StampGoesOn(c: Config, s: System, t: System, f: nat)
    requires ValidConfig(c) && Enabled(c, s, Stamp(f)) && FrameOk(c, s, s.frames[f]) && t == Step(c, s, Stamp(f))
    requires var i := s.frames[f].record; RecordOk(c, s, s.infos[i], s.st.records[i])
    ensures FrameOk(c, t, t.frames[f])
    ensures RecordOk(c, t, t.infos[s.frames[f].record], t.st.records[s.frames[f].record])
  {
    var frame := s.frames[f];
    var info, p := s.infos[frame.record], s.st.records[frame.record];
    var held := c.held[info.broker];
    var start: nat :| Underway(s.delivered, held, start, frame);
    StampIsTruthful(s.delivered, held, p, start, frame);
    if IsLast(s, info) {
      StampIsTruthful(s.delivered, held, p, CutsOf(s, info)[frame.seqNum], frame);
    }
  }

  lemma StampWithin(c: Config, s: System, f: nat)
    requires ValidConfig(c) && Enabled(c, s, Stamp(f)) && FrameOk(c, s, s.frames[f])
    requires RecordOk(c, s, s.infos[s.frames[f].record], s.st.records[s.frames[f].record])
    ensures var t, i := Step(c, s, Stamp(f)), s.frames[f].record;
            WithinRound(s, t, i, f) && RecordOk(c, t, t.infos[i], t.st.records[i]) && FrameOk(c, t, t.frames[f])
  {
    StampGoesOn(c, s, Step(c, s, Stamp(f)), f);
  }

  lemma StampSound(c: Config, s: System, f: nat)
    requires ValidConfig(c) && Sound(c, s) && Enabled(c, s, Stamp(f))
    ensures Sound(c, Step(c, s, Stamp(f)))
  {
    StepNumbers(c, s, Stamp(f));
    StampWithin(c, s, f);
    WithinRoundSound(c, s, Step(c, s, Stamp(f)), s.frames[f].record, f);
  }

  /** A response that was handed on completely extends the finished ones by at most itself. */
  lemma FinishIsCounted(delivered: set<Message>, held: seq<Message>, cuts: seq<nat>, m: nat, p: Progress, frame: Frame)
    requires Counted(delivered, held, cuts, m, p) && UnderwayIn(delivered, held, cuts, frame)
    requires frame.seqNum <= m && !frame.stored && frame.next == |frame.payload|
    requires frame.next > 0 ==> p.timestamp.Some?
    ensures Counted(delivered, held, cuts, if frame.seqNum == m then m + 1 else m, Finished(p, frame.seqNum))
  {
  }

  lemma FinishedCount(finished: set<int>, k: int, lastSeqNum: int)
    requires Unbroken(finished, lastSeqNum) && 0 <= k <= |finished|
    ensures |finished + {k}| == if k == |finished| then |finished| + 1 else |finished|
  {
    if k in finished {
      assert finished + {k} == finished;
    }
  }

  lemma FinishWithin(c: Config, s: System, f: nat)
    requires Enabled(c, s, Finish(f)) && FrameOk(c, s, s.frames[f]) && FrameNumbers(s, s.frames[f])
    requires RecordNumbers(s, s.frames[f].record)
    requires RecordOk(c, s, s.infos[s.frames[f].record], s.st.records[s.frames[f].record])
    ensures var t, i := Step(c, s, Finish(f)), s.frames[f].record;
            WithinRound(s, t, i, f) && RecordOk(c, t, t.infos[i], t.st.records[i])
  {
    var frame := s.frames[f];
    var i := frame.record;
    FinishedCount(s.infos[i].finished, frame.seqNum, s.st.records[i].lastSeqNum);
    if IsLast(s, s.infos[i]) {
      FinishIsCounted(s.delivered, c.held[s.infos[i].broker], CutsOf(s, s.infos[i]), |s.infos[i].finished|, s.st.records[i], frame);
    }
  }

  lemma FinishSound(c: Config, s: System, f: nat)
    requires ValidConfig(c) && Sound(c, s) && Enabled(c, s, Finish(f))
    ensures Sound(c, Step(c, s, Finish(f)))
  {
    StepNumbers(c, s, Finish(f));
    FinishWithin(c, s, f);
    WithinRoundSound(c, s, Step(c, s, Finish(f)), s.frames[f].record, f);
  }

  lemma ThrowSound(c: Config, s: System, f: nat)
    requires ValidConfig(c) && Sound(c, s) && Enabled(c, s, Throw(f))
    ensures Sound(c, Step(c, s, Throw(f)))
  {
    StepNumbers(c, s, Throw(f));
    WithinRoundSound(c, s, Step(c, s, Throw(f)), -1, f);
  }

  lemma LiveSound(c: Config, s: System, m: Message)
    requires ValidConfig(c) && Sound(c, s) && Enabled(c, s, Live(m))
    ensures Sound(c, Step(c, s, Live(m)))
  {
    StepNumbers(c, s, Live(m));
    WithinRoundSound(c, s, Step(c, s, Live(m)), -1, -1);
  }

  /** A response starts where everything before it was delivered. */
  lemma BegunIsUnderway(delivered: set<Message>, held: seq<Message>, cuts: seq<nat>, i: nat, k: nat)
    requires k + 1 < |cuts| && cuts[k] <= cuts[k + 1] <= |held| && Has(delivered, held, cuts[k])
    ensures UnderwayIn(delivered, held, cuts, Frame(i, k, held[cuts[k]..cuts[k + 1]], 0, false))
  {
  }

  /** The record of `b` is that of round `r`, which asks and is answered as the environment promises. */
  ghost predicate Current(c: Config, s: System, b: Address, r: nat) {
    && s.st.Valid() && b in s.st.progresses && |s.infos| == |s.st.records| && r < |s.rounds| && b in c.held
    && var info := s.infos[s.st.progresses[b]];
       && info.broker == b && info.round == r && IsLast(s, info)
       && RecordOk(c, s, info, s.st.Record(b)) && RecordNumbers(s, s.st.progresses[b])
       && ValidReply(c.held[b], s.rounds[r].from, s.rounds[r].replies[b])
       && (s.st.Record(b).timestamp.None? ==> s.rounds[r].from == 0)
  }

  lemma UnstampedAsksFromZero(c: Config, s: System, b: Address)
    requires s.st.Valid() && RequestOk(c, s) && s.rounds != [] && b in s.st.progresses && s.st.Record(b).timestamp.None?
    ensures s.rounds[|s.rounds| - 1].from == 0
  {
    assert !s.st.AllStamped();
  }

  /** Once the records are reset, the record of every broker is that of the last round. */
  lemma CurrentRecord(c: Config, s: System, b: Address)
    requires ValidConfig(c) && RequestOk(c, s) && s.isReset && s.rounds != [] && b in c.brokers
    requires s.st.Valid() && |s.infos| == |s.st.records|
    requires RoundOk(c, s, |s.rounds| - 1)
    requires b in s.st.progresses ==> RecordNumbers(s, s.st.progresses[b])
    requires b in s.st.progresses ==> RecordOk(c, s, s.infos[s.st.progresses[b]], s.st.records[s.st.progresses[b]])
    ensures Current(c, s, b, |s.rounds| - 1)
  {
    if s.st.Record(b).timestamp.None? {
      UnstampedAsksFromZero(c, s, b);
    }
  }

  /** Starting a handler changes nothing else. */
  lemma BegunWithin(s: System, b: Address, k: nat, payload: seq<Message>)
    requires s.st.Valid() && b in s.st.progresses && |s.infos| == |s.st.records|
    ensures WithinRound(s, Begun(s, b, k, payload), -1, s.made)
  {
  }

  lemma BegunFrameOk(c: Config, s: System, b: Address, r: nat, k: nat)
    requires Current(c, s, b, r) && k - s.st.Record(b).lastSeqNum <= 1
    requires k + 1 < |s.rounds[r].replies[b].cuts|
    ensures var cuts := s.rounds[r].replies[b].cuts;
            var t := Begun(s, b, k, c.held[b][cuts[k]..cuts[k + 1]]);
            FrameOk(c, t, t.frames[s.made])
  {
    var i, cuts := s.st.progresses[b], s.rounds[r].replies[b].cuts;
    assert cuts[k] <= cuts[|s.infos[i].finished|];
    BegunIsUnderway(s.delivered, c.held[b], cuts, i, k);
  }

  lemma BeginSound(c: Config, s: System, b: Address, r: nat, k: nat)
    requires Sound(c, s) && Current(c, s, b, r) && k - s.st.Record(b).lastSeqNum <= 1
    requires k + 1 < |s.rounds[r].replies[b].cuts|
    ensures var cuts := s.rounds[r].replies[b].cuts;
            Sound(c, Begun(s, b, k, c.held[b][cuts[k]..cuts[k + 1]]))
  {
    var cuts := s.rounds[r].replies[b].cuts;
    var payload := c.held[b][cuts[k]..cuts[k + 1]];
    BegunWithin(s, b, k, payload);
    BegunFrameOk(c, s, b, r, k);
    BegunNumbers(s, b, k, payload);
    WithinRoundSound(c, s, Begun(s, b, k, payload), -1, s.made);
  }

  /** A completion is accepted only when every response was finished; a broker that sent nothing from time 0 holds nothing. */
  lemma CompletedIsTruthful(delivered: set<Message>, held: seq<Message>, from: nat, reply: Reply, m: nat, p: Progress)
    requires ValidReply(held, from, reply) && Truthful(delivered, held, p) && Counted(delivered, held, reply.cuts, m, p)
    requires |reply.cuts| - 1 <= m
    requires p.timestamp.None? ==> from == 0
    ensures Truthful(delivered, held, Completed(p, reply.isFulfilled, reply.publishedAt))
    ensures Counted(delivered, held, reply.cuts, m, Completed(p, reply.isFulfilled, reply.publishedAt))
  {
  }

  lemma CloseWithin(c: Config, s: System, b: Address, r: nat)
    requires Current(c, s, b, r) && |s.rounds[r].replies[b].cuts| - 1 - s.st.Record(b).lastSeqNum <= 1
    ensures var reply, i := s.rounds[r].replies[b], s.st.progresses[b];
            var t := Closed(s, b, |reply.cuts| - 1, reply.isFulfilled, reply.publishedAt);
            WithinRound(s, t, i, -1) && RecordOk(c, t, t.infos[i], t.st.records[i])
  {
    var i, reply := s.st.progresses[b], s.rounds[r].replies[b];
    CompletedIsTruthful(s.delivered, c.held[b], s.rounds[r].from, reply, |s.infos[i].finished|, s.st.records[i]);
  }

  lemma CloseSound(c: Config, s: System, b: Address, r: nat)
    requires Sound(c, s) && Current(c, s, b, r) && |s.rounds[r].replies[b].cuts| - 1 - s.st.Record(b).lastSeqNum <= 1
    ensures var reply := s.rounds[r].replies[b];
            Sound(c, Closed(s, b, |reply.cuts| - 1, reply.isFulfilled, reply.publishedAt))
  {
    var reply := s.rounds[r].replies[b];
    CloseWithin(c, s, b, r);
    ClosedNumbers(s, b, |reply.cuts| - 1, reply.isFulfilled, reply.publishedAt);
    WithinRoundSound(c, s, Closed(s, b, |reply.cuts| - 1, reply.isFulfilled, reply.publishedAt), s.st.progresses[b], -1);
  }

  lemma AcceptedSound(c: Config, s: System, b: Address, r: nat, k: nat)
    requires Sound(c, s) && Current(c, s, b, r) && k < |s.rounds[r].replies[b].cuts|
    requires k - s.st.Record(b).lastSeqNum <= 1
    ensures match ContentOf(c.held[b], s.rounds[r].replies[b], k)
            case RecoveryResponse(_, payload) => Sound(c, Begun(s, b, k, payload))
            case RecoveryComplete(_, isFulfilled, publishedAt) => Sound(c, Closed(s, b, k, isFulfilled, publishedAt))
  {
    if k + 1 < |s.rounds[r].replies[b].cuts| {
      BeginSound(c, s, b, r, k);
    } else {
      CloseSound(c, s, b, r);
    }
  }

  lemma RejectedSound(c: Config, s: System)
    requires Sound(c, s)
    ensures Sound(c, s.(st := s.st.Fail()))
  {
    var t := s.(st := s.st.Fail());
    OldNumbersKept(s, t);
    WithinRoundSound(c, s, t, -1, -1);
  }

  lemma SoundRecord(c: Config, s: System, i: nat)
    requires Sound(c, s) && i < |s.infos|
    ensures |s.infos| == |s.st.records| && RecordNumbers(s, i) && RecordOk(c, s, s.infos[i], s.st.records[i])
  {
  }

  lemma SoundRound(c: Config, s: System, r: nat)
    requires Sound(c, s) && r < |s.rounds|
    ensures RoundOk(c, s, r)
  {
  }

  // ----- Messages before the reset -----

  /** The record of `b` is of an earlier round, and the last round asks and is answered as the environment promises. */
  ghost predicate Early(c: Config, s: System, b: Address) {
    && s.st.Valid() && b in s.st.progresses && |s.infos| == |s.st.records| && s.rounds != []
    && var (i, round) := (s.st.progresses[b], s.rounds[|s.rounds| - 1]);
       && Placed(c, s, s.infos[i]) && s.infos[i].broker == b && !IsLast(s, s.infos[i])
       && Truthful(s.delivered, c.held[b], s.st.records[i])
       && b in round.replies && ValidReply(c.held[b], round.from, round.replies[b])
       && Has(s.delivered, c.held[b], round.replies[b].cuts[0])
       && (s.st.records[i].timestamp.None? ==> round.from == 0)
  }

  lemma UnresetIsEarly(c: Config, s: System, b: Address)
    requires RequestOk(c, s) && s.st.Valid() && |s.infos| == |s.st.records| && !s.isReset
    requires s.rounds != [] && b in c.brokers && b in s.st.progresses && RoundOk(c, s, |s.rounds| - 1)
    requires RecordOk(c, s, s.infos[s.st.progresses[b]], s.st.records[s.st.progresses[b]])
    ensures Early(c, s, b)
  {
    if s.st.Record(b).timestamp.None? {
      UnstampedAsksFromZero(c, s, b);
    }
  }

  /** The first response of a reply starts where the round asks from, and everything before that was delivered. */
  lemma EarlyFrameOk(c: Config, s: System, b: Address)
    requires Early(c, s, b) && |s.rounds[|s.rounds| - 1].replies[b].cuts| > 1
    ensures var cuts := s.rounds[|s.rounds| - 1].replies[b].cuts;
            var t := Begun(s, b, 0, c.held[b][cuts[0]..cuts[1]]);
            FrameOk(c, t, t.frames[s.made])
  {
    var i, cuts := s.st.progresses[b], s.rounds[|s.rounds| - 1].replies[b].cuts;
    var frame := Frame(i, 0, c.held[b][cuts[0]..cuts[1]], 0, false);
    BegunIsUnderway(s.delivered, c.held[b], cuts, i, 0);
    assert Underway(s.delivered, c.held[b], cuts[0], frame);
  }

  lemma EarlyBeginSound(c: Config, s: System, b: Address)
    requires Sound(c, s) && Early(c, s, b) && |s.rounds[|s.rounds| - 1].replies[b].cuts| > 1
    ensures var cuts := s.rounds[|s.rounds| - 1].replies[b].cuts;
            Sound(c, Begun(s, b, 0, c.held[b][cuts[0]..cuts[1]]))
  {
    var cuts := s.rounds[|s.rounds| - 1].replies[b].cuts;
    var payload := c.held[b][cuts[0]..cuts[1]];
    BegunWithin(s, b, 0, payload);
    EarlyFrameOk(c, s, b);
    EarlyNumber(s, b);
    BegunNumbers(s, b, 0, payload);
    WithinRoundSound(c, s, Begun(s, b, 0, payload), -1, s.made);
  }

  /** Number 0 is never rejected. */
  lemma EarlyNumber(s: System, b: Address)
    requires NumbersAgree(s) && b in s.st.progresses
    ensures 0 - s.st.Record(b).lastSeqNum <= 1
  {
    assert RecordNumbers(s, s.st.progresses[b]);
  }

  /** A completion numbered 0 says that the broker sent nothing from the requested time on. */
  lemma NothingSentIsTruthful(delivered: set<Message>, held: seq<Message>, from: nat, reply: Reply, p: Progress)
    requires ValidReply(held, from, reply) && Truthful(delivered, held, p) && |reply.cuts| == 1
    requires Has(delivered, held, reply.cuts[0])
    requires p.timestamp.None? ==> from == 0
    ensures Truthful(delivered, held, Completed(p, reply.isFulfilled, reply.publishedAt))
  {
  }

  lemma EarlyCloseWithin(c: Config, s: System, b: Address)
    requires Early(c, s, b) && |s.rounds[|s.rounds| - 1].replies[b].cuts| == 1
    ensures var reply, i := s.rounds[|s.rounds| - 1].replies[b], s.st.progresses[b];
            var t := Closed(s, b, 0, reply.isFulfilled, reply.publishedAt);
            WithinRound(s, t, i, -1) && RecordOk(c, t, t.infos[i], t.st.records[i])
  {
    var round := s.rounds[|s.rounds| - 1];
    NothingSentIsTruthful(s.delivered, c.held[b], round.from, round.replies[b], s.st.Record(b));
  }

  lemma EarlyCloseSound(c: Config, s: System, b: Address)
    requires Sound(c, s) && Early(c, s, b) && |s.rounds[|s.rounds| - 1].replies[b].cuts| == 1
    ensures var reply := s.rounds[|s.rounds| - 1].replies[b];
            Sound(c, Closed(s, b, 0, reply.isFulfilled, reply.publishedAt))
  {
    var reply := s.rounds[|s.rounds| - 1].replies[b];
    EarlyCloseWithin(c, s, b);
    EarlyNumber(s, b);
    ClosedNumbers(s, b, 0, reply.isFulfilled, reply.publishedAt);
    WithinRoundSound(c, s, Closed(s, b, 0, reply.isFulfilled, reply.publishedAt), s.st.progresses[b], -1);
  }

  lemma EarlyTakenSound(c: Config, s: System, b: Address, r: nat)
    requires Sound(c, s) && Early(c, s, b) && r == |s.rounds| - 1
    ensures match ContentOf(c.held[b], s.rounds[r].replies[b], 0)
            case RecoveryResponse(_, payload) => Sound(c, Begun(s, b, 0, payload))
            case RecoveryComplete(_, isFulfilled, publishedAt) => Sound(c, Closed(s, b, 0, isFulfilled, publishedAt))
  {
    if |s.rounds[r].replies[b].cuts| > 1 {
      EarlyBeginSound(c, s, b);
    } else {
      EarlyCloseSound(c, s, b);
    }
  }

  // ----- Any message that arrives -----

  /** A message of the last request from a broker with a record is rejected, or taken. */
  lemma ArriveAtRecord(c: Config, s: System, b: Address, r: nat, k: nat)
    requires Enabled(c, s, Arrive(b, r, k)) && s.st.requestId == Some(r) && b in s.st.progresses
    ensures k - s.st.Record(b).lastSeqNum > 1 ==> StepArrive(c, s, b, r, k) == s.(st := s.st.Fail())
    ensures k - s.st.Record(b).lastSeqNum <= 1 ==>
              StepArrive(c, s, b, r, k) ==
              match ContentOf(c.held[b], s.rounds[r].replies[b], k)
              case RecoveryResponse(_, payload) => Begun(s, b, k, payload)
              case RecoveryComplete(_, isFulfilled, publishedAt) => Closed(s, b, k, isFulfilled, publishedAt)
  {
    ArriveCases(c, s, b, r, k);
  }

  lemma ArriveLateSound(c: Config, s: System, b: Address, r: nat, k: nat)
    requires ValidConfig(c) && Sound(c, s) && Enabled(c, s, Arrive(b, r, k)) && s.st.requestId == Some(r) && s.isReset
    ensures Sound(c, StepArrive(c, s, b, r, k))
  {
    ArriveAtRecord(c, s, b, r, k);
    SoundRound(c, s, r);
    SoundRecord(c, s, s.st.progresses[b]);
    CurrentRecord(c, s, b);
    if k - s.st.Record(b).lastSeqNum > 1 {
      RejectedSound(c, s);
    } else {
      AcceptedSound(c, s, b, r, k);
    }
  }

  lemma SoundIsEarly(c: Config, s: System, b: Address)
    requires Sound(c, s) && !s.isReset && s.rounds != [] && b in c.brokers && b in s.st.progresses
    ensures Early(c, s, b)
  {
    SoundRound(c, s, |s.rounds| - 1);
    SoundRecord(c, s, s.st.progresses[b]);
    UnresetIsEarly(c, s, b);
  }

  lemma ArriveFirstSound(c: Config, s: System, b: Address, r: nat)
    requires Sound(c, s) && Enabled(c, s, Arrive(b, r, 0)) && s.st.requestId == Some(r)
    requires Early(c, s, b) && r == |s.rounds| - 1
    ensures Sound(c, StepArrive(c, s, b, r, 0))
  {
    EarlyNumber(s, b);
    EarlyTakenSound(c, s, b, r);
    ArriveAtRecord(c, s, b, r, 0);
  }

  lemma ArriveAheadSound(c: Config, s: System, b: Address, r: nat, k: nat)
    requires Sound(c, s) && Enabled(c, s, Arrive(b, r, k)) && s.st.requestId == Some(r)
    requires b in s.st.progresses && k - s.st.Record(b).lastSeqNum > 1
    ensures Sound(c, StepArrive(c, s, b, r, k))
  {
    RejectedSound(c, s);
    ArriveAtRecord(c, s, b, r, k);
  }

  lemma ArriveEarlySound(c: Config, s: System, b: Address, r: nat, k: nat)
    requires Sound(c, s) && Enabled(c, s, Arrive(b, r, k)) && s.st.requestId == Some(r) && !s.isReset
    requires IsHarmless(s, b, k)
    ensures Sound(c, StepArrive(c, s, b, r, k))
  {
    if k == 0 {
      SoundIsEarly(c, s, b);
      ArriveFirstSound(c, s, b, r);
    } else {
      ArriveAheadSound(c, s, b, r, k);
    }
  }

  lemma ArriveSound(c: Config, s: System, b: Address, r: nat, k: nat)
    requires ValidConfig(c) && Sound(c, s) && Enabled(c, s, Arrive(b, r, k)) && Quiet(s, Arrive(b, r, k))
    ensures Sound(c, Step(c, s, Arrive(b, r, k)))
  {
    if s.st.requestId != Some(r) {
      ArriveCases(c, s, b, r, k);
    } else if s.isReset {
      ArriveLateSound(c, s, b, r, k);
    } else {
      ArriveEarlySound(c, s, b, r, k);
    }
  }

  lemma StepSound(c: Config, s: System, e: Event)
    requires ValidConfig(c) && Sound(c, s) && Enabled(c, s, e) && Quiet(s, e)
    ensures Sound(c, Step(c, s, e))
  {
    match e
    case Assign(replies) => AssignSound(c, s, replies);
    case Reset(addresses) => ResetSound(c, s, addresses);
    case Arrive(b, r, k) => ArriveSound(c, s, b, r, k);
    case Store(f) => StoreSound(c, s, f);
    case Stamp(f) => StampSound(c, s, f);
    case Finish(f) => FinishSound(c, s, f);
    case Throw(f) => ThrowSound(c, s, f);
    case Live(m) => LiveSound(c, s, m);
  }

  ghost predicate IsQuietRun(c: Config, s: System, events: seq<Event>)
    decreases |events|
  {
    events != [] ==>
      Enabled(c, s, events[0]) && Quiet(s, events[0]) && IsQuietRun(c, Step(c, s, events[0]), events[1..])
  }

  lemma {:induction false} RunSound(c: Config, s: System, events: seq<Event>)
    requires ValidConfig(c) && Sound(c, s) && IsQuietRun(c, s, events)
    ensures IsRun(c, s, events) && Sound(c, Run(c, s, events))
    decreases |events|
  {
    if events != [] {
      StepSound(c, s, events[0]);
      RunSound(c, Step(c, s, events[0]), events[1..]);
    }
  }

  // ----- The main results -----

  /** Every message each broker holds in the window was handed to the listener. */
  ghost predicate NothingMissed(c: Config, s: System) {
    forall b, q :: b in c.brokers && b in c.held && 0 <= q < |c.held[b]| ==> c.held[b][q] in s.delivered
  }

  /** Every message each broker holds strictly before `t` was handed to the listener. */
  ghost predicate NothingMissedBefore(c: Config, s: System, t: nat) {
    forall b, q :: b in c.brokers && b in c.held && 0 <= q < |c.held[b]| && c.held[b][q].timestamp < t ==>
      c.held[b][q] in s.delivered
  }

  /** In a sound state the aggregate can be believed: its timestamp, and its being complete and fulfilled. */
  lemma AggregateIsTrue(c: Config, s: System)
    requires ValidConfig(c) && Sound(c, s)
    ensures s.st.Aggregate().timestamp.Some? ==> NothingMissedBefore(c, s, s.st.Aggregate().timestamp.value)
    ensures s.st.Aggregate().isComplete && s.st.Aggregate().isFulfilled ==> NothingMissed(c, s)
  {
    if s.st.AllStamped() {
      forall b, q | b in c.brokers && 0 <= q < |c.held[b]| && c.held[b][q].timestamp < s.st.From()
        ensures c.held[b][q] in s.delivered
      {
        FromIsCovered(c, s, b);
        FirstAtMeans(c.held[b], s.st.From(), q);
      }
      if s.st.Aggregate().isComplete && s.st.Aggregate().isFulfilled {
        forall b, q | b in c.brokers && 0 <= q < |c.held[b]| ensures c.held[b][q] in s.delivered {
          var i := s.st.progresses[b];
          assert RecordOk(c, s, s.infos[i], s.st.Record(b));
        }
      }
    }
  }

  /**
   Over every run with loss, repetition, reordering, restarts and unfulfilled rounds: once the aggregate is
   complete and fulfilled nothing was missed, and at any time nothing was missed before its timestamp.
   */
  lemma RecoveryMissesNothing(c: Config, events: seq<Event>)
    requires ValidConfig(c) && IsQuietRun(c, INITIAL, events)
    ensures IsRun(c, INITIAL, events)
    ensures var s := Run(c, INITIAL, events);
            && s.st.Valid()
            && (s.st.Aggregate().isComplete && s.st.Aggregate().isFulfilled ==> NothingMissed(c, s))
            && (s.st.Aggregate().timestamp.Some? ==> NothingMissedBefore(c, s, s.st.Aggregate().timestamp.value))
  {
    RunSound(c, INITIAL, events);
    AggregateIsTrue(c, Run(c, INITIAL, events));
  }
}
