/** The client's pools of query responses and propagates, pre-filtered before the HTTP request id is known. */
module MessagePools {
  import opened Prelude
  import opened QueryInput
  import S = SystemMessage

  /** A system message with the publisher its metadata names. */
  datatype Received = Received(publisherId: Text, message: S.Message)

  datatype Kind = Responses | Propagates

  predicate IsOf(r: Received, kind: Kind) {
    match kind
    case Responses => r.message.QueryResponse?
    case Propagates => r.message.QueryPropagate?
  }

  /** The request id of the three kinds of messages the pools look at. */
  function IdOf(r: Received): Text {
    match r.message
    case QueryRequest(_, _, requestId, _, _, _, _) => requestId
    case QueryResponse(_, _, requestId, _, _) => requestId
    case QueryPropagate(_, _, requestId, _, _) => requestId
    case _ => []
  }

  /** The node that published the request a message belongs to. */
  function RequesterOf(r: Received): Text {
    match r.message
    case QueryResponse(_, _, _, requestPublisherId, _) => requestPublisherId
    case QueryPropagate(_, _, _, requestPublisherId, _) => requestPublisherId
    case _ => r.publisherId
  }

  /** What the filters know: the query node, the HTTP request id, and the ids found impossible. */
  datatype Known = Known(node: Option<Text>, requestId: Option<Text>, impossible: set<Text>) {
    predicate Passes(r: Received) {
      && node == Some(RequesterOf(r))
      && if requestId.None? then IdOf(r) !in impossible else IdOf(r) == requestId.value
    }
  }

  /** The latest message of a kind, which every change of what is known emits again, and the messages kept. */
  datatype Pool = Pool(latest: Option<Received>, kept: seq<Received>) {
    function Emit(known: Known): Pool {
      if latest.Some? && known.Passes(latest.value) then this.(kept := kept + [latest.value]) else this
    }

    function Shrink(requestId: Text): Pool {
      this.(kept := WithId(kept, requestId))
    }
  }

  function WithId(rs: seq<Received>, requestId: Text): (kept: seq<Received>)
    ensures forall r :: r in kept <==> r in rs && IdOf(r) == requestId
  {
    if rs == [] then []
    else (if IdOf(rs[0]) == requestId then [rs[0]] else []) + WithId(rs[1..], requestId)
  }

  datatype State = State(request: Option<Received>, responses: Pool, propagates: Pool, known: Known, failed: bool) {
    function PoolOf(kind: Kind): Pool {
      if kind.Responses? then responses else propagates
    }

    /** The latest request passes and asks for something else than the input. */
    predicate Flags(input: Input) {
      && request.Some? && request.value.message.QueryRequest?
      && known.Passes(request.value)
      && HasIncompatibleQueryInput(input, request.value.message)
    }

    /**
     The id of an incompatible request becomes impossible, and the set of impossible ids is emitted again.
     With the HTTP request id known, that emission passes the same request once more, without end.
     */
    function Flag(input: Input): State {
      if !Flags(input) then this
      else if known.requestId.Some? then this.(failed := true)
      else this.(known := known.(impossible := known.impossible + {IdOf(request.value)}))
    }

    function EmitBoth(): State {
      if failed then this else this.(responses := responses.Emit(known), propagates := propagates.Emit(known))
    }

    function OnRequest(input: Input, r: Received): State {
      var s := this.(request := Some(r));
      if s.Flags(input) then s.Flag(input).EmitBoth() else s
    }

    function OnPoolMessage(kind: Kind, r: Received): State {
      if kind.Responses? then this.(responses := responses.(latest := Some(r)).Emit(known))
      else this.(propagates := propagates.(latest := Some(r)).Emit(known))
    }

    /** The query node's address reaches the request filter first. */
    function OnNodeAddress(input: Input, address: Text): State {
      this.(known := known.(node := Some(address))).Flag(input).EmitBoth()
    }

    /** The HTTP request id reaches the filters in the same order, and the pools shrink last. */
    function OnRequestId(input: Input, id: Text): State {
      var s := this.(known := known.(requestId := Some(id))).Flag(input).EmitBoth();
      if s.failed then s else s.(responses := s.responses.Shrink(id), propagates := s.propagates.Shrink(id))
    }
  }

  const EMPTY := Pool(None, [])
  const INITIAL := State(None, EMPTY, EMPTY, Known(None, None, {}), false)

  datatype Event = Arrives(received: Received) | NodeAddress(address: Text) | RequestId(id: Text)

  /** Both the query node's address and the HTTP request id are found once. */
  predicate Enabled(s: State, e: Event) {
    match e
    case Arrives(_) => true
    case NodeAddress(_) => s.known.node.None?
    case RequestId(_) => s.known.requestId.None?
  }

  /** An error ends the whole collection. */
  function Step(input: Input, s: State, e: Event): State {
    if s.failed then s
    else
      match e
      case Arrives(r) =>
        if r.message.QueryRequest? then s.OnRequest(input, r)
        else if r.message.QueryResponse? then s.OnPoolMessage(Responses, r)
        else if r.message.QueryPropagate? then s.OnPoolMessage(Propagates, r)
        else s
      case NodeAddress(address) => s.OnNodeAddress(input, address)
      case RequestId(id) => s.OnRequestId(input, id)
  }

  // ----- The program, with its subjects -----

  /** The fields are the values the behaviour subjects and the combined streams hold. */
  class Collector {
    const input: Input
    var request: Option<Received>
    var latestResponse: Option<Received>
    var latestPropagate: Option<Received>
    var responsesPool: seq<Received>
    var propagatesPool: seq<Received>
    var known: Known
    var failed: bool

    ghost function View(): State
      reads this
    {
      State(request, Pool(latestResponse, responsesPool), Pool(latestPropagate, propagatesPool), known, failed)
    }

    constructor (input: Input)
      ensures this.input == input && View() == INITIAL
    {
      this.input := input;
      request, latestResponse, latestPropagate := None, None, None;
      responsesPool, propagatesPool := [], [];
      known, failed := Known(None, None, {}), false;
    }

    method FillPools()
      modifies `responsesPool, `propagatesPool
      ensures View() == old(View().EmitBoth())
    {
      if !failed {
        if latestResponse.Some? && known.Passes(latestResponse.value) {
          responsesPool := responsesPool + [latestResponse.value];
        }
        if latestPropagate.Some? && known.Passes(latestPropagate.value) {
          propagatesPool := propagatesPool + [latestPropagate.value];
        }
      }
    }

    method FillImpossibleIds() returns (flagged: bool)
      modifies `known, `failed
      ensures View() == old(View().Flag(input)) && flagged == old(View().Flags(input))
    {
      flagged := request.Some? && request.value.message.QueryRequest? && known.Passes(request.value) &&
        HasIncompatibleQueryInput(input, request.value.message);
      if flagged && known.requestId.Some? {
        failed := true;
      } else if flagged {
        known := known.(impossible := known.impossible + {IdOf(request.value)});
      }
    }

    method OnSystemMessage(r: Received)
      modifies this
      ensures View() == Step(input, old(View()), Arrives(r))
    {
      if failed {
        return;
      }
      if r.message.QueryRequest? {
        request := Some(r);
        var flagged := FillImpossibleIds();
        if flagged {
          FillPools();
        }
      } else if r.message.QueryResponse? {
        latestResponse := Some(r);
        if known.Passes(r) {
          responsesPool := responsesPool + [r];
        }
      } else if r.message.QueryPropagate? {
        latestPropagate := Some(r);
        if known.Passes(r) {
          propagatesPool := propagatesPool + [r];
        }
      }
    }

    method OnNodeAddress(address: Text)
      modifies this
      ensures View() == Step(input, old(View()), NodeAddress(address))
    {
      if failed {
        return;
      }
      known := known.(node := Some(address));
      var _ := FillImpossibleIds();
      FillPools();
    }

    method OnRequestId(id: Text)
      modifies this
      ensures View() == Step(input, old(View()), RequestId(id))
    {
      if failed {
        return;
      }
      known := known.(requestId := Some(id));
      var _ := FillImpossibleIds();
      FillPools();
      if !failed {
        responsesPool := WithId(responsesPool, id);
        propagatesPool := WithId(propagatesPool, id);
      }
    }
  }

  // ----- Runs -----

  ghost predicate IsRun(input: Input, events: seq<Event>) {
    events == [] ||
    (IsRun(input, events[..|events| - 1]) && Enabled(Run(input, events[..|events| - 1]), events[|events| - 1]))
  }

  ghost function Run(input: Input, events: seq<Event>): State {
    if events == [] then INITIAL
    else Step(input, Run(input, events[..|events| - 1]), events[|events| - 1])
  }

  ghost function LatestOf(kind: Kind, events: seq<Event>): Option<Received> {
    if events == [] then None
    else
      var e := events[|events| - 1];
      if e.Arrives? && IsOf(e.received, kind) then Some(e.received) else LatestOf(kind, events[..|events| - 1])
  }

  predicate NodeResolved(events: seq<Event>) {
    exists i :: 0 <= i < |events| && events[i].NodeAddress?
  }

  /** The messages received since the query node's address was resolved, with the one that was the latest then. */
  ghost function Heard(kind: Kind, events: seq<Event>): set<Received> {
    if events == [] then {}
    else
      var (earlier, e) := (events[..|events| - 1], events[|events| - 1]);
      match e
      case NodeAddress(_) => var latest := LatestOf(kind, earlier); if latest.Some? then {latest.value} else {}
      case Arrives(r) => if NodeResolved(earlier) && IsOf(r, kind) then Heard(kind, earlier) + {r} else Heard(kind, earlier)
      case RequestId(_) => Heard(kind, earlier)
  }

  // ----- What every step keeps -----

  /** A pool holds nothing but heard messages of the query node, and all of them whose id was never found impossible. */
  ghost predicate PoolSound(p: Pool, known: Known, heard: set<Received>) {
    match known.node
    case None => p.kept == [] && heard == {}
    case Some(node) =>
      && (p.latest.Some? ==> p.latest.value in heard)
      && (forall r :: r in p.kept ==> r in heard && RequesterOf(r) == node)
      && (known.requestId.Some? ==> forall r :: r in p.kept ==> IdOf(r) == known.requestId.value)
      && forall r :: r in heard && Wanted(known, r) && IdOf(r) !in known.impossible ==> r in p.kept
  }

  /** A message of the query node's request, as far as it is known. */
  predicate Wanted(known: Known, r: Received) {
    known.node == Some(RequesterOf(r)) && (known.requestId.Some? ==> IdOf(r) == known.requestId.value)
  }

  lemma EmitKeeps(p: Pool, known: Known, heard: set<Received>)
    requires PoolSound(p, known, heard)
    ensures PoolSound(p.Emit(known), known, heard)
  {
  }

  lemma FlagKeeps(p: Pool, known: Known, heard: set<Received>, id: Text)
    requires PoolSound(p, known, heard)
    ensures PoolSound(p, known.(impossible := known.impossible + {id}), heard)
  {
  }

  lemma HearKeeps(p: Pool, known: Known, heard: set<Received>, r: Received)
    requires PoolSound(p, known, heard)
    ensures PoolSound(p.(latest := Some(r)).Emit(known), known, if known.node.Some? then heard + {r} else heard)
  {
  }

  lemma NodeKeeps(p: Pool, known: Known, known': Known, heard: set<Received>, address: Text)
    requires PoolSound(p, known, heard) && known.node.None?
    requires known'.node == Some(address) && known'.requestId == known.requestId
    ensures PoolSound(p.Emit(known'), known', if p.latest.Some? then {p.latest.value} else {})
  {
  }

  lemma IdKeeps(p: Pool, known: Known, heard: set<Received>, id: Text)
    requires PoolSound(p, known, heard) && known.requestId.None?
    ensures PoolSound(p.Emit(known.(requestId := Some(id))).Shrink(id), known.(requestId := Some(id)), heard)
  {
  }

  ghost predicate StateSound(s: State, events: seq<Event>) {
    && (s.known.node.Some? <==> NodeResolved(events))
    && KindSound(s, Responses, events)
    && KindSound(s, Propagates, events)
  }

  ghost predicate KindSound(s: State, kind: Kind, events: seq<Event>) {
    && s.PoolOf(kind).latest == LatestOf(kind, events)
    && PoolSound(s.PoolOf(kind), s.known, Heard(kind, events))
  }

  lemma ResolvedNext(events: seq<Event>)
    requires events != []
    ensures NodeResolved(events) <==> NodeResolved(events[..|events| - 1]) || events[|events| - 1].NodeAddress?
  {
    var n := |events| - 1;
    if i :| 0 <= i < |events| && events[i].NodeAddress? {
      if i < n {
        assert events[..n][i].NodeAddress?;
      }
    }
  }

  lemma ArrivalKeeps(input: Input, s: State, events: seq<Event>, kind: Kind)
    requires events != [] && events[|events| - 1].Arrives?
    requires (s.known.node.Some? <==> NodeResolved(events[..|events| - 1])) && KindSound(s, kind, events[..|events| - 1])
    ensures var next := Step(input, s, events[|events| - 1]);
            !next.failed ==> KindSound(next, kind, events) && next.known.node == s.known.node
  {
    var (earlier, r) := (events[..|events| - 1], events[|events| - 1].received);
    var p := s.PoolOf(kind);
    if IsOf(r, kind) {
      HearKeeps(p, s.known, Heard(kind, earlier), r);
    } else if r.message.QueryRequest? {
      FlagKeeps(p, s.known, Heard(kind, earlier), IdOf(r));
      EmitKeeps(p, s.known.(impossible := s.known.impossible + {IdOf(r)}), Heard(kind, earlier));
    }
  }

  lemma AddressKeeps(input: Input, s: State, events: seq<Event>, kind: Kind)
    requires events != [] && events[|events| - 1].NodeAddress? && Enabled(s, events[|events| - 1])
    requires KindSound(s, kind, events[..|events| - 1])
    ensures var next := Step(input, s, events[|events| - 1]);
            !next.failed ==> KindSound(next, kind, events) && next.known.node.Some?
  {
    var (earlier, address) := (events[..|events| - 1], events[|events| - 1].address);
    var flagged := s.(known := s.known.(node := Some(address))).Flag(input);
    NodeKeeps(s.PoolOf(kind), s.known, flagged.known, Heard(kind, earlier), address);
  }

  lemma RequestIdKeeps(input: Input, s: State, events: seq<Event>, kind: Kind)
    requires events != [] && events[|events| - 1].RequestId? && Enabled(s, events[|events| - 1])
    requires KindSound(s, kind, events[..|events| - 1])
    ensures var next := Step(input, s, events[|events| - 1]);
            !next.failed ==> KindSound(next, kind, events) && next.known.node == s.known.node
  {
    IdKeeps(s.PoolOf(kind), s.known, Heard(kind, events[..|events| - 1]), events[|events| - 1].id);
  }

  lemma StepKeepsKind(input: Input, s: State, events: seq<Event>, kind: Kind)
    requires events != [] && Enabled(s, events[|events| - 1]) && !s.failed
    requires (s.known.node.Some? <==> NodeResolved(events[..|events| - 1])) && KindSound(s, kind, events[..|events| - 1])
    ensures var next := Step(input, s, events[|events| - 1]);
            !next.failed ==> KindSound(next, kind, events) && (next.known.node.Some? <==> NodeResolved(events))
  {
    ResolvedNext(events);
    match events[|events| - 1]
    case Arrives(_) => ArrivalKeeps(input, s, events, kind);
    case NodeAddress(_) => AddressKeeps(input, s, events, kind);
    case RequestId(_) => RequestIdKeeps(input, s, events, kind);
  }

  lemma {:induction false} RunKeeps(input: Input, events: seq<Event>)
    requires IsRun(input, events)
    ensures !Run(input, events).failed ==> StateSound(Run(input, events), events)
  {
    if events != [] {
      RunKeeps(input, events[..|events| - 1]);
      var s := Run(input, events[..|events| - 1]);
      if !s.failed {
        StepKeepsKind(input, s, events, Responses);
        StepKeepsKind(input, s, events, Propagates);
      }
    }
  }

  // ----- Which ids can be found impossible -----

  /** Under `id`, `node` published a request that asks for something else than the input. */
  ghost predicate AskedOtherwise(input: Input, events: seq<Event>, node: Text, id: Text) {
    exists i :: 0 <= i < |events| && IsOtherRequest(input, events[i], node, id)
  }

  predicate IsOtherRequest(input: Input, e: Event, node: Text, id: Text) {
    && e.Arrives? && e.received.message.QueryRequest?
    && e.received.publisherId == node && IdOf(e.received) == id
    && HasIncompatibleQueryInput(input, e.received.message)
  }

  ghost predicate Explained(input: Input, s: State, events: seq<Event>) {
    && (s.request.Some? ==> s.request.value.message.QueryRequest? && Arrives(s.request.value) in events)
    && (s.known.node.None? ==> s.known.impossible == {} && !s.failed)
    && (s.known.node.Some? ==>
          && (forall id :: id in s.known.impossible ==> AskedOtherwise(input, events, s.known.node.value, id))
          && (s.failed ==> s.known.requestId.Some? && AskedOtherwise(input, events, s.known.node.value, s.known.requestId.value)))
  }

  lemma StillAsked(input: Input, earlier: seq<Event>, e: Event, node: Text, id: Text)
    requires AskedOtherwise(input, earlier, node, id)
    ensures AskedOtherwise(input, earlier + [e], node, id)
  {
    var i :| 0 <= i < |earlier| && IsOtherRequest(input, earlier[i], node, id);
    assert (earlier + [e])[i] == earlier[i];
  }

  lemma FlagIsExplained(input: Input, s: State, events: seq<Event>)
    requires Explained(input, s, events) && !s.failed
    ensures Explained(input, s.Flag(input), events)
  {
    if s.Flags(input) {
      var i :| 0 <= i < |events| && events[i] == Arrives(s.request.value);
      assert IsOtherRequest(input, events[i], s.known.node.value, IdOf(s.request.value));
    }
  }

  lemma {:induction false} RunIsExplained(input: Input, events: seq<Event>)
    requires IsRun(input, events)
    ensures Explained(input, Run(input, events), events)
  {
    if events != [] {
      var (earlier, e) := (events[..|events| - 1], events[|events| - 1]);
      var s := Run(input, earlier);
      RunIsExplained(input, earlier);
      assert events == earlier + [e];
      if s.known.node.Some? {
        forall id | AskedOtherwise(input, earlier, s.known.node.value, id)
          ensures AskedOtherwise(input, events, s.known.node.value, id)
        {
          StillAsked(input, earlier, e, s.known.node.value, id);
        }
      }
      assert Explained(input, s, events);
      if !s.failed {
        StepIsExplained(input, s, e, events);
      }
    }
  }

  lemma StepIsExplained(input: Input, s: State, e: Event, events: seq<Event>)
    requires Explained(input, s, events) && !s.failed && Enabled(s, e) && e in events
    ensures Explained(input, Step(input, s, e), events)
  {
    match e
    case Arrives(r) =>
      if r.message.QueryRequest? {
        FlagIsExplained(input, s.(request := Some(r)), events);
      }
    case NodeAddress(address) => FlagIsExplained(input, s.(known := s.known.(node := Some(address))), events);
    case RequestId(id) => FlagIsExplained(input, s.(known := s.known.(requestId := Some(id))), events);
  }

  // ----- Pre-filtering is only an optimisation -----

  function AsSet<T>(s: seq<T>): set<T> {
    set x | x in s
  }

  /** The pool is, as a set, exactly the heard messages with the HTTP request id that belong to the query node's request. */
  ghost predicate Exact(s: State, kind: Kind, events: seq<Event>) {
    && s.known.node.Some? && s.known.requestId.Some?
    && AsSet(s.PoolOf(kind).kept) ==
       set r | r in Heard(kind, events) && RequesterOf(r) == s.known.node.value && IdOf(r) == s.known.requestId.value
  }

  /** Impossible ids, re-emissions and shrinking never add or lose a message, unless the node's request asked something else. */
  lemma PoolsAreExact(input: Input, events: seq<Event>, kind: Kind)
    requires IsRun(input, events)
    requires Run(input, events).known.node.Some? && Run(input, events).known.requestId.Some?
    requires var known := Run(input, events).known;
             !AskedOtherwise(input, events, known.node.value, known.requestId.value)
    ensures !Run(input, events).failed && Exact(Run(input, events), kind, events)
  {
    RunKeeps(input, events);
    RunIsExplained(input, events);
    assert KindSound(Run(input, events), kind, events);
  }

  /** Before the id is known, the pool keeps every heard message of the node that is not flagged, so none is lost by waiting. */
  lemma PoolsKeepUnflagged(input: Input, events: seq<Event>, kind: Kind, r: Received)
    requires IsRun(input, events) && !Run(input, events).failed
    requires r in Heard(kind, events) && Wanted(Run(input, events).known, r)
    requires !AskedOtherwise(input, events, RequesterOf(r), IdOf(r))
    ensures r in Run(input, events).PoolOf(kind).kept
  {
    RunKeeps(input, events);
    RunIsExplained(input, events);
    assert KindSound(Run(input, events), kind, events);
  }

  /**
   While the id is not known: of two messages not pooled yet, followed by the news that their id is the HTTP
   request id, the earlier one is kept exactly when that id was not impossible.
   */
  lemma ImpossibleIdLosesMessages(input: Input, s: State, first: Received, second: Received)
    requires !s.failed && s.known.node.Some? && s.known.requestId.None?
    requires first.message.QueryResponse? && second.message.QueryResponse? && first != second
    requires RequesterOf(first) == s.known.node.value && RequesterOf(second) == s.known.node.value
    requires IdOf(first) == IdOf(second) && first !in s.responses.kept
    ensures var told := Step(input, Step(input, s, Arrives(first)), Arrives(second));
            var end := Step(input, told, RequestId(IdOf(first)));
            !end.failed ==> (first in end.responses.kept <==> IdOf(first) !in s.known.impossible)
  {
  }

  // ----- On the fields of the messages -----

  /** A response or propagate for the request that `node` published under `id`, whoever published it. */
  predicate BelongsTo(r: Received, kind: Kind, node: Text, id: Text) {
    match kind
    case Responses => r.message.QueryResponse? && r.message.requestPublisherId == node && r.message.requestId == id
    case Propagates => r.message.QueryPropagate? && r.message.requestPublisherId == node && r.message.requestId == id
  }

  lemma {:induction false} HeardAreOfKind(kind: Kind, events: seq<Event>, r: Received)
    requires r in Heard(kind, events) || LatestOf(kind, events) == Some(r)
    ensures if kind.Responses? then r.message.QueryResponse? else r.message.QueryPropagate?
    decreases |events|
  {
    var earlier := events[..|events| - 1];
    if r in Heard(kind, earlier) || LatestOf(kind, earlier) == Some(r) {
      HeardAreOfKind(kind, earlier, r);
    }
  }

  /** Exactness without the filters: a message is in the pool exactly when it was heard and its own fields name the node and the id. */
  lemma PoolsHoldOwnMessages(input: Input, events: seq<Event>, kind: Kind, r: Received)
    requires IsRun(input, events)
    requires Run(input, events).known.node.Some? && Run(input, events).known.requestId.Some?
    requires var known := Run(input, events).known;
             !AskedOtherwise(input, events, known.node.value, known.requestId.value)
    ensures var (s, known) := (Run(input, events), Run(input, events).known);
            r in s.PoolOf(kind).kept <==> r in Heard(kind, events) && BelongsTo(r, kind, known.node.value, known.requestId.value)
  {
    PoolsAreExact(input, events, kind);
    var s := Run(input, events);
    assert r in AsSet(s.PoolOf(kind).kept) <==> r in s.PoolOf(kind).kept;
    if r in Heard(kind, events) {
      HeardAreOfKind(kind, events, r);
    }
  }

  /** What a response does when it arrives: its `requestPublisherId` and `requestId` decide, its publisher does not. */
  lemma ResponseIsKeptIff(input: Input, s: State, r: Received)
    requires !s.failed && r.message.QueryResponse?
    ensures var next := Step(input, s, Arrives(r));
            && (r in next.responses.kept <==>
                r in s.responses.kept ||
                (s.known.node == Some(r.message.requestPublisherId) &&
                 match s.known.requestId
                 case None => r.message.requestId !in s.known.impossible
                 case Some(id) => r.message.requestId == id))
            && next.propagates == s.propagates && next.known == s.known && !next.failed
  {
  }

  lemma PropagateIsKeptIff(input: Input, s: State, r: Received)
    requires !s.failed && r.message.QueryPropagate?
    ensures var next := Step(input, s, Arrives(r));
            && (r in next.propagates.kept <==>
                r in s.propagates.kept ||
                (s.known.node == Some(r.message.requestPublisherId) &&
                 match s.known.requestId
                 case None => r.message.requestId !in s.known.impossible
                 case Some(id) => r.message.requestId == id))
            && next.responses == s.responses && next.known == s.known && !next.failed
  {
  }

  /** What a request does when it arrives: its publisher and its id decide whether it is compared at all. */
  lemma RequestIsFlaggedIff(input: Input, s: State, r: Received)
    requires !s.failed && r.message.QueryRequest?
    ensures var next := Step(input, s, Arrives(r));
            var isCompared := s.known.node == Some(r.publisherId) &&
              match s.known.requestId
              case None => r.message.requestId !in s.known.impossible
              case Some(id) => r.message.requestId == id;
            var isFlagged := isCompared && HasIncompatibleQueryInput(input, r.message);
            && (next.failed <==> isFlagged && s.known.requestId.Some?)
            && (next.known.impossible == s.known.impossible +
                if isFlagged && s.known.requestId.None? then {r.message.requestId} else {})
  {
  }

  /** An answer to the query node's request is kept, whichever node published it. */
  lemma AnswersOfAllNodesAreKept(input: Input, events: seq<Event>, kind: Kind, node: Text, id: Text, r: Received)
    requires IsRun(input, events + [Arrives(r)])
    requires Run(input, events + [Arrives(r)]).known.node == Some(node) && Run(input, events + [Arrives(r)]).known.requestId == Some(id)
    requires !AskedOtherwise(input, events + [Arrives(r)], node, id)
    requires BelongsTo(r, kind, node, id)
    ensures r in Run(input, events + [Arrives(r)]).PoolOf(kind).kept
  {
    var all := events + [Arrives(r)];
    assert all[..|events|] == events;
    RunKeeps(input, events);
    RunIsExplained(input, all);
    RunKeeps(input, all);
    PoolsHoldOwnMessages(input, all, kind, r);
  }

  // ----- The client's own request -----

  /** Every request the node published under `id` asks what the input asks, and came over the wire. */
  ghost predicate OnlyOwnRequest(input: Input, events: seq<Event>, node: Text, id: Text) {
    forall i :: 0 <= i < |events| && IsOwn(events[i], node, id) ==> IsOwnRequest(input, events[i].received.message)
  }

  predicate IsOwn(e: Event, node: Text, id: Text) {
    e.Arrives? && e.received.message.QueryRequest? && e.received.publisherId == node && IdOf(e.received) == id
  }

  ghost predicate IsOwnRequest(input: Input, arrived: S.Message) {
    exists sent: S.Message ::
      sent.QueryRequest? && sent.version == S.LATEST_VERSION && AsksTheSame(input, sent) && arrived == S.Arrival(sent)
  }

  /** A client that leaves no optional parameter out collects exactly the messages of its own query. */
  lemma OwnQueryIsCollected(input: Input, events: seq<Event>, kind: Kind)
    requires IsRun(input, events) && FullySpecified(input.query)
    requires Run(input, events).known.node.Some? && Run(input, events).known.requestId.Some?
    requires var known := Run(input, events).known;
             OnlyOwnRequest(input, events, known.node.value, known.requestId.value)
    ensures !Run(input, events).failed && Exact(Run(input, events), kind, events)
  {
    var known := Run(input, events).known;
    if i :| 0 <= i < |events| && IsOtherRequest(input, events[i], known.node.value, known.requestId.value) {
      assert IsOwn(events[i], known.node.value, known.requestId.value);
      var sent: S.Message :| sent.QueryRequest? && sent.version == S.LATEST_VERSION && AsksTheSame(input, sent) &&
        events[i].received.message == S.Arrival(sent);
      ArrivedRequestIsCompatibleIff(input, sent);
      assert false;
    }
    PoolsAreExact(input, events, kind);
  }

  /**
   The client's own request, heard once the node is known: it ends the collection if the id is known and
   makes the id impossible if not, exactly when the input left an optional parameter out.
   */
  lemma OwnRequestIsFlaggedIff(input: Input, s: State, sent: S.Message, node: Text)
    requires !s.failed && s.known.node == Some(node)
    requires sent.QueryRequest? && sent.version == S.LATEST_VERSION && AsksTheSame(input, sent)
    requires s.known.requestId.None? || s.known.requestId == Some(sent.requestId)
    requires sent.requestId !in s.known.impossible
    ensures var next := Step(input, s, Arrives(Received(node, S.Arrival(sent))));
            !FullySpecified(input.query) <==>
              if s.known.requestId.Some? then next.failed else sent.requestId in next.known.impossible
  {
    ArrivedRequestIsCompatibleIff(input, sent);
  }

  /** A run in which the node is `node`, the HTTP request id is `id`, and the node's only request under it is the client's own. */
  ghost predicate IsOwnRun(input: Input, events: seq<Event>, node: Text, id: Text) {
    && IsRun(input, events)
    && Run(input, events).known.node == Some(node) && Run(input, events).known.requestId == Some(id)
    && OnlyOwnRequest(input, events, node, id)
  }

  ghost predicate Collects(input: Input, events: seq<Event>) {
    !Run(input, events).failed && Exact(Run(input, events), Responses, events) && Exact(Run(input, events), Propagates, events)
  }

  /** The client's request for its own input. */
  function OwnRequest(input: Input, id: Text): S.Message {
    S.QueryRequest(S.LATEST_VERSION, 0, id, [], input.streamId, input.partition, AsQuery(input.query))
  }

  /** The node answers, the id is known, and then the client hears its own request. */
  function OwnRequestLast(input: Input, node: Text, id: Text): seq<Event> {
    [NodeAddress(node), RequestId(id), Arrives(Received(node, S.Arrival(OwnRequest(input, id))))]
  }

  lemma RunNext(input: Input, earlier: seq<Event>, e: Event)
    requires IsRun(input, earlier) && Enabled(Run(input, earlier), e)
    ensures IsRun(input, earlier + [e]) && Run(input, earlier + [e]) == Step(input, Run(input, earlier), e)
  {
    assert (earlier + [e])[..|earlier|] == earlier;
  }

  lemma OwnRequestLastRuns(input: Input, node: Text, id: Text)
    ensures var events := OwnRequestLast(input, node, id);
            && IsRun(input, events)
            && Run(input, events) == Step(input, Run(input, events[..2]), events[2])
            && Run(input, events[..2]) == State(None, EMPTY, EMPTY, Known(Some(node), Some(id), {}), false)
  {
    var events := OwnRequestLast(input, node, id);
    RunNext(input, [], NodeAddress(node));
    RunNext(input, [] + [NodeAddress(node)], RequestId(id));
    assert events[..2] == [] + [NodeAddress(node)] + [RequestId(id)];
    RunNext(input, events[..2], events[2]);
    assert events == events[..2] + [events[2]];
  }

  lemma OwnRequestLastIsOwnRun(input: Input, node: Text, id: Text)
    ensures IsOwnRun(input, OwnRequestLast(input, node, id), node, id)
  {
    OwnRequestLastRuns(input, node, id);
    assert AsksTheSame(input, OwnRequest(input, id));
  }

  /** Whatever node and id, the client collects exactly its own messages in every run if and only if it leaves no parameter out. */
  lemma OwnQueryIsCollectedIff(input: Input, node: Text, id: Text)
    ensures (forall events :: IsOwnRun(input, events, node, id) ==> Collects(input, events)) <==> FullySpecified(input.query)
  {
    if FullySpecified(input.query) {
      forall events | IsOwnRun(input, events, node, id) ensures Collects(input, events) {
        OwnQueryIsCollected(input, events, Responses);
        OwnQueryIsCollected(input, events, Propagates);
      }
    } else {
      var events := OwnRequestLast(input, node, id);
      OwnRequestLastRuns(input, node, id);
      OwnRequestLastIsOwnRun(input, node, id);
      OwnRequestIsFlaggedIff(input, Run(input, events[..2]), OwnRequest(input, id), node);
      assert !Collects(input, events);
    }
  }
}
