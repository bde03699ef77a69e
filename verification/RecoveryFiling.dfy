/** What the validator's store holds after recovery: live and recovered copies of a message are filed as one. */
module RecoveryFiling {
  import opened Prelude
  import opened SystemRecovery
  import opened RecoveryRuns
  import opened RecoverySafety
  import G = ItemGate
  import J = Json
  import L = SystemListener
  import S = SystemMessage

  /**
   The system messages behind the messages of the runs: what was sent, with its metadata, the metadata that only
   live deliveries have, and the hash function.
   */
  datatype Traffic = Traffic(sent: Message -> S.Recovered, extra: Message -> string, sha256: L.Body -> string)

  function Delivered(w: Traffic, message: S.Message, metadata: S.Metadata, extra: string): L.Delivery {
    L.Delivery(message, metadata, extra, w.sha256(L.BodyOf(message, metadata)))
  }

  /** The copy that arrives over the network when the message is sent. */
  function LiveCopy(w: Traffic, m: Message): L.Delivery {
    Delivered(w, S.Arrival(w.sent(m).content), w.sent(m).metadata, w.extra(m))
  }

  /** What a broker keeps of the message, and puts into a response. */
  function BrokerCopy(w: Traffic, m: Message): S.Recovered {
    S.Recovered(S.Arrival(w.sent(m).content), w.sent(m).metadata)
  }

  /** The copy that arrives inside a response. */
  function RecoveredCopy(w: Traffic, m: Message): L.Delivery {
    var copy := BrokerCopy(w, m);
    Delivered(w, S.Arrival(copy.content), copy.metadata, "")
  }

  function BrokerCopies(w: Traffic, payload: seq<Message>): (copies: seq<S.Recovered>)
    ensures |copies| == |payload|
    ensures forall i :: 0 <= i < |payload| ==> copies[i] == BrokerCopy(w, payload[i])
  {
    if payload == [] then [] else [BrokerCopy(w, payload[0])] + BrokerCopies(w, payload[1..])
  }

  /** Writing a response and reading it gives the recovered copies, in order. */
  lemma ResponseCarriesCopies(w: Traffic, payload: seq<Message>, seqNum: J.SafeInt, requestId: Text, i: nat)
    requires forall m :: m in payload ==> S.Valid(w.sent(m).content) && S.AllLatest(w.sent(m).content)
    requires i < |payload|
    ensures var text := S.Serialize(S.RecoveryResponse(S.LATEST_VERSION, seqNum, requestId, BrokerCopies(w, payload)));
            && text.Ok? && S.Deserialize(text.value).Ok?
            && var arrived := S.Deserialize(text.value).value;
               && arrived.RecoveryResponse? && |arrived.recovered| == |payload|
               && Delivered(w, arrived.recovered[i].content, arrived.recovered[i].metadata, "") == RecoveredCopy(w, payload[i])
  {
    var copies := BrokerCopies(w, payload);
    forall j | 0 <= j < |copies| ensures S.Valid(copies[j].content) && S.AllLatest(copies[j].content) {
      S.PlainArrives(w.sent(payload[j]).content);
    }
    S.SerializeArrives(S.RecoveryResponse(S.LATEST_VERSION, seqNum, requestId, copies));
    S.ArrivalsAt(copies, i);
  }

  /** The two copies of a message differ in the extra metadata only, so their hashes and keys agree. */
  lemma CopiesAgree(w: Traffic, m: Message)
    ensures RecoveredCopy(w, m) == LiveCopy(w, m).(extra := "")
  {
    S.PlainArrives(w.sent(m).content);
    S.PlainArrives(S.Arrival(w.sent(m).content));
  }

  // ----- The deliveries of a run -----

  function DeliveryOf(c: Config, w: Traffic, s: System, e: Event): seq<L.Delivery>
    requires Enabled(c, s, e)
  {
    match e
    case Store(f) => [RecoveredCopy(w, s.frames[f].payload[s.frames[f].next])]
    case Live(m) => [LiveCopy(w, m)]
    case _ => []
  }

  /** What the listener is handed during a run, in order. */
  ghost function Deliveries(c: Config, w: Traffic, s: System, events: seq<Event>): seq<L.Delivery>
    requires IsRun(c, s, events)
    decreases |events|
  {
    if events == [] then []
    else DeliveryOf(c, w, s, events[0]) + Deliveries(c, w, Step(c, s, events[0]), events[1..])
  }

  /** A live or a recovered copy of `m`. */
  predicate IsCopy(w: Traffic, m: Message, d: L.Delivery) {
    d == LiveCopy(w, m) || d == RecoveredCopy(w, m)
  }

  ghost predicate HasCopy(w: Traffic, deliveries: seq<L.Delivery>, m: Message) {
    exists d :: d in deliveries && IsCopy(w, m, d)
  }

  ghost predicate ComesFrom(w: Traffic, delivered: set<Message>, d: L.Delivery) {
    exists m :: m in delivered && IsCopy(w, m, d)
  }

  lemma StepDelivers(c: Config, w: Traffic, s: System, e: Event)
    requires Enabled(c, s, e)
    ensures s.delivered <= Step(c, s, e).delivered
    ensures forall m :: m in Step(c, s, e).delivered - s.delivered ==> HasCopy(w, DeliveryOf(c, w, s, e), m)
    ensures forall d :: d in DeliveryOf(c, w, s, e) ==> ComesFrom(w, Step(c, s, e).delivered, d)
  {
    match e
    case Arrive(b, r, k) => ArriveCases(c, s, b, r, k);
    case Store(f) =>
      var m := s.frames[f].payload[s.frames[f].next];
      assert RecoveredCopy(w, m) in DeliveryOf(c, w, s, e);
    case Live(m) => assert LiveCopy(w, m) in DeliveryOf(c, w, s, e);
    case _ =>
  }

  lemma HasCopyIn(w: Traffic, first: seq<L.Delivery>, rest: seq<L.Delivery>, m: Message)
    requires HasCopy(w, first, m) || HasCopy(w, rest, m)
    ensures HasCopy(w, first + rest, m)
  {
    if HasCopy(w, first, m) {
      var d :| d in first && IsCopy(w, m, d);
      assert d in first + rest;
    } else {
      var d :| d in rest && IsCopy(w, m, d);
      assert d in first + rest;
    }
  }

  lemma {:induction false} RunDelivers(c: Config, w: Traffic, s: System, events: seq<Event>)
    requires IsRun(c, s, events)
    ensures s.delivered <= Run(c, s, events).delivered
    ensures forall m :: m in Run(c, s, events).delivered - s.delivered ==> HasCopy(w, Deliveries(c, w, s, events), m)
    ensures forall d :: d in Deliveries(c, w, s, events) ==> ComesFrom(w, Run(c, s, events).delivered, d)
    decreases |events|
  {
    if events != [] {
      var next := Step(c, s, events[0]);
      var (first, rest) := (DeliveryOf(c, w, s, events[0]), Deliveries(c, w, next, events[1..]));
      StepDelivers(c, w, s, events[0]);
      RunDelivers(c, w, next, events[1..]);
      forall m | m in Run(c, s, events).delivered - s.delivered ensures HasCopy(w, first + rest, m) {
        HasCopyIn(w, first, rest, m);
      }
      forall d | d in first + rest ensures ComesFrom(w, Run(c, s, events).delivered, d) {
        var m :| m in Run(c, s, events).delivered && IsCopy(w, m, d);
      }
    }
  }

  /** The message is kept under that kind, key and hash. */
  ghost predicate BelongsTo(w: Traffic, m: Message, kind: L.Kind, key: L.Key, hash: string) {
    L.Filed(LiveCopy(w, m), kind, key) && LiveCopy(w, m).hash == hash
  }

  lemma CopyBelongs(w: Traffic, m: Message, d: L.Delivery, kind: L.Kind, key: L.Key, hash: string)
    requires IsCopy(w, m, d)
    ensures BelongsTo(w, m, kind, key, hash) <==> L.Filed(d, kind, key) && d.hash == hash
  {
    CopiesAgree(w, m);
  }

  ghost predicate AnyDelivery(deliveries: seq<L.Delivery>, kind: L.Kind, key: L.Key, hash: string) {
    exists d :: d in deliveries && L.Filed(d, kind, key) && d.hash == hash
  }

  ghost predicate AnyMessage(w: Traffic, delivered: set<Message>, kind: L.Kind, key: L.Key, hash: string) {
    exists m :: m in delivered && BelongsTo(w, m, kind, key, hash)
  }

  lemma DeliveryIsMessage(w: Traffic, delivered: set<Message>, d: L.Delivery, kind: L.Kind, key: L.Key, hash: string)
    requires ComesFrom(w, delivered, d) && L.Filed(d, kind, key) && d.hash == hash
    ensures AnyMessage(w, delivered, kind, key, hash)
  {
    var m :| m in delivered && IsCopy(w, m, d);
    CopyBelongs(w, m, d, kind, key, hash);
  }

  lemma MessageIsDelivery(w: Traffic, deliveries: seq<L.Delivery>, m: Message, kind: L.Kind, key: L.Key, hash: string)
    requires HasCopy(w, deliveries, m) && BelongsTo(w, m, kind, key, hash)
    ensures AnyDelivery(deliveries, kind, key, hash)
  {
    var d :| d in deliveries && IsCopy(w, m, d);
    CopyBelongs(w, m, d, kind, key, hash);
  }

  /** Under each key the store holds exactly the hashes of the delivered messages that belong there, whichever way they came. */
  lemma StoreIsDelivered(c: Config, w: Traffic, events: seq<Event>, kind: L.Kind, key: L.Key, hash: string)
    requires IsRun(c, INITIAL, events)
    ensures L.HasHash(L.Get(L.Stored(kind, Deliveries(c, w, INITIAL, events)), key), hash) <==>
            AnyMessage(w, Run(c, INITIAL, events).delivered, kind, key, hash)
  {
    var (deliveries, delivered) := (Deliveries(c, w, INITIAL, events), Run(c, INITIAL, events).delivered);
    RunDelivers(c, w, INITIAL, events);
    L.StoredHashes(kind, deliveries, key, hash);
    if d :| d in deliveries && L.Filed(d, kind, key) && d.hash == hash {
      DeliveryIsMessage(w, delivered, d, kind, key, hash);
    }
    if m :| m in delivered && BelongsTo(w, m, kind, key, hash) {
      assert m in delivered - INITIAL.delivered;
      MessageIsDelivery(w, deliveries, m, kind, key, hash);
    }
  }

  // ----- What recovery promises of the store -----

  /** A message of a kind the listener keeps is in the database of its kind. */
  ghost predicate IsFiled(w: Traffic, deliveries: seq<L.Delivery>, m: Message) {
    var copy := LiveCopy(w, m);
    copy.Kind() != L.Other ==> L.HasHash(L.Get(L.Stored(copy.Kind(), deliveries), L.KeyOf(copy)), copy.hash)
  }

  ghost predicate AllFiled(c: Config, w: Traffic, deliveries: seq<L.Delivery>) {
    forall b, q :: b in c.brokers && b in c.held && 0 <= q < |c.held[b]| ==> IsFiled(w, deliveries, c.held[b][q])
  }

  ghost predicate AllFiledBefore(c: Config, w: Traffic, deliveries: seq<L.Delivery>, t: nat) {
    forall b, q :: b in c.brokers && b in c.held && 0 <= q < |c.held[b]| && c.held[b][q].timestamp < t ==>
      IsFiled(w, deliveries, c.held[b][q])
  }

  lemma DeliveredIsFiled(c: Config, w: Traffic, events: seq<Event>, m: Message)
    requires IsRun(c, INITIAL, events) && m in Run(c, INITIAL, events).delivered
    ensures IsFiled(w, Deliveries(c, w, INITIAL, events), m)
  {
    var copy := LiveCopy(w, m);
    StoreIsDelivered(c, w, events, copy.Kind(), L.KeyOf(copy), copy.hash);
  }

  lemma NothingMissedIsFiled(c: Config, w: Traffic, events: seq<Event>)
    requires IsRun(c, INITIAL, events) && NothingMissed(c, Run(c, INITIAL, events))
    ensures AllFiled(c, w, Deliveries(c, w, INITIAL, events))
  {
    forall b, q | b in c.brokers && b in c.held && 0 <= q < |c.held[b]|
      ensures IsFiled(w, Deliveries(c, w, INITIAL, events), c.held[b][q])
    {
      DeliveredIsFiled(c, w, events, c.held[b][q]);
    }
  }

  lemma NothingMissedBeforeIsFiled(c: Config, w: Traffic, events: seq<Event>, t: nat)
    requires IsRun(c, INITIAL, events) && NothingMissedBefore(c, Run(c, INITIAL, events), t)
    ensures AllFiledBefore(c, w, Deliveries(c, w, INITIAL, events), t)
  {
    forall b, q | b in c.brokers && b in c.held && 0 <= q < |c.held[b]| && c.held[b][q].timestamp < t
      ensures IsFiled(w, Deliveries(c, w, INITIAL, events), c.held[b][q])
    {
      DeliveredIsFiled(c, w, events, c.held[b][q]);
    }
  }

  /**
   Over every run with loss, repetition, reordering and restarts: once the aggregate is complete and fulfilled, every
   message a broker holds is in the store under its hash; at any time, every one before the aggregate's timestamp is.
   */
  lemma RecoveryFilesEverything(c: Config, w: Traffic, events: seq<Event>)
    requires ValidConfig(c) && IsQuietRun(c, INITIAL, events)
    ensures IsRun(c, INITIAL, events) && Run(c, INITIAL, events).st.Valid()
    ensures var aggregate := Run(c, INITIAL, events).st.Aggregate();
            var deliveries := Deliveries(c, w, INITIAL, events);
            && (aggregate.isComplete && aggregate.isFulfilled ==> AllFiled(c, w, deliveries))
            && (aggregate.timestamp.Some? ==> AllFiledBefore(c, w, deliveries, aggregate.timestamp.value))
  {
    RecoveryMissesNothing(c, events);
    var aggregate := Run(c, INITIAL, events).st.Aggregate();
    if aggregate.isComplete && aggregate.isFulfilled {
      NothingMissedIsFiled(c, w, events);
    }
    if aggregate.timestamp.Some? {
      NothingMissedBeforeIsFiled(c, w, events, aggregate.timestamp.value);
    }
  }

  /** When an item is produced, all system messages before the end of its window are in the store, unless a complete aggregate is not fulfilled. */
  lemma GeneratedItemIsBacked(c: Config, w: Traffic, events: seq<Event>, key: nat, indexed: Option<nat>)
    requires ValidConfig(c) && IsQuietRun(c, INITIAL, events)
    ensures IsRun(c, INITIAL, events) && Run(c, INITIAL, events).st.Valid()
    ensures var st := Run(c, INITIAL, events).st;
            G.ItemAt(c, events, key, indexed) == G.Generated &&
            (st.Aggregate().isComplete ==> st.Aggregate().isFulfilled || st.From() >= 1000 * key) ==>
              AllFiledBefore(c, w, Deliveries(c, w, INITIAL, events), 1000 * key)
  {
    G.GeneratedMissesNothing(c, events, key, indexed);
    if NothingMissedBefore(c, Run(c, INITIAL, events), 1000 * key) {
      NothingMissedBeforeIsFiled(c, w, events, 1000 * key);
    }
  }
}
