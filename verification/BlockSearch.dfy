/** Interpolation search for the block at a point in time. */
module BlockSearch {
  import opened Prelude

  /** The chain as the provider shows it: block number to block timestamp. */
  type Chain = seq<int>

  ghost predicate Increasing(chain: Chain) {
    forall i, j :: 0 <= i < j < |chain| ==> chain[i] < chain[j]
  }

  /** How many blocks are earlier than `ts`: the point at which `ts` would be inserted. */
  function Earlier(chain: Chain, ts: int): (n: nat)
    ensures n <= |chain|
  {
    if chain == [] then 0
    else Earlier(chain[..|chain| - 1], ts) + if chain[|chain| - 1] < ts then 1 else 0
  }

  /** On an increasing chain the earlier blocks are the first ones. */
  lemma {:induction false} EarlierIs(chain: Chain, ts: int, p: nat)
    requires p <= |chain|
    requires forall i :: 0 <= i < p ==> chain[i] < ts
    requires forall i :: p <= i < |chain| ==> chain[i] >= ts
    ensures Earlier(chain, ts) == p
  {
    if chain != [] {
      var n := |chain| - 1;
      EarlierIs(chain[..n], ts, if p <= n then p else n);
    }
  }

  // ----- JavaScript numbers -----

  /** A JavaScript number; doubles are taken to be exact. */
  datatype Number = NaN | MinusInfinity | Finite(value: real) | PlusInfinity

  /** `a / b`; the zero that a difference of equal numbers gives is positive. */
  function Divide(a: int, b: int): Number {
    if b != 0 then Finite(a as real / b as real)
    else if a > 0 then PlusInfinity
    else if a < 0 then MinusInfinity
    else NaN
  }

  function Times(x: Number, n: int): Number {
    match x
    case NaN => NaN
    case Finite(value) => Finite(value * n as real)
    case PlusInfinity => if n > 0 then PlusInfinity else if n < 0 then MinusInfinity else NaN
    case MinusInfinity => if n > 0 then MinusInfinity else if n < 0 then PlusInfinity else NaN
  }

  function Plus(n: int, x: Number): Number {
    if x.Finite? then Finite(n as real + x.value) else x
  }

  /** What is left of a number after rounding and clamping to integers. */
  datatype BlockTag = NotANumber | Block(id: int)

  /** `Math.round`, then `Math.min` with `maxId`, then `Math.max` with `minId`: the lower bound wins. */
  function Clamped(x: Number, minId: int, maxId: int): BlockTag {
    match x
    case NaN => NotANumber
    case MinusInfinity => Block(minId)
    case PlusInfinity => Block(if maxId > minId then maxId else minId)
    case Finite(value) =>
      var rounded := (value + 0.5).Floor;
      var below := if rounded < maxId then rounded else maxId;
      Block(if below > minId then below else minId)
  }

  // ----- The provider -----

  /**
   The timestamp of the block a provider of @ethersproject/providers 5.7.2 returns: a negative number counts
   back from the latest block, but not beyond block 0; a number that is none is sent as block 0; a block that
   does not exist yet comes back as `null`, and reading its timestamp throws.
   */
  function GetTimestamp(chain: Chain, tag: BlockTag): Option<int>
    requires chain != []
  {
    match tag
    case NotANumber => Some(chain[0])
    case Block(id) =>
      if id >= |chain| then None
      else if id >= 0 then Some(chain[id])
      else if |chain| - 1 + id >= 0 then Some(chain[|chain| - 1 + id])
      else Some(chain[0])
  }

  // ----- The search -----

  datatype Probe = Probe(tag: BlockTag, ts: int)

  /** The interpolated block number before it is rounded and clamped. */
  function Interpolate(ts: int, minId: int, maxId: int, minTs: int, maxTs: int): Number {
    Plus(minId, Times(Divide(ts - minTs, maxTs - minTs), maxId - minId))
  }

  /** A time outside the two bounds is clamped to the nearer one. */
  lemma InterpolateOutside(ts: int, minId: int, maxId: int, minTs: int, maxTs: int)
    requires minId <= maxId && minTs < maxTs
    ensures ts <= minTs ==> Clamped(Interpolate(ts, minId, maxId, minTs, maxTs), minId, maxId) == Block(minId)
    ensures ts >= maxTs ==> Clamped(Interpolate(ts, minId, maxId, minTs, maxTs), minId, maxId) == Block(maxId)
  {
    var f := (ts - minTs) as real / (maxTs - minTs) as real;
    if ts <= minTs {
      assert f <= 0.0;
      assert f * (maxId - minId) as real <= 0.0;
    }
    if ts >= maxTs {
      assert f >= 1.0;
      assert (f - 1.0) * (maxId - minId) as real >= 0.0;
      assert f * (maxId - minId) as real >= (maxId - minId) as real;
    }
  }

  /** The probe is no number exactly when the bounds read one timestamp and are one block or meet the time itself. */
  lemma InterpolateIsNaNIff(ts: int, minId: int, maxId: int, minTs: int, maxTs: int)
    ensures Clamped(Interpolate(ts, minId, maxId, minTs, maxTs), minId, maxId).NotANumber? <==>
            minTs == maxTs && (minId == maxId || ts == minTs)
  {
  }

  /** A probe is the block's own timestamp, and its block stays between the bounds, the lower one first. */
  ghost predicate IsProbe(chain: Chain, ts: int, minId: int, maxId: int, p: Probe)
    requires chain != [] && 0 <= minId < |chain| && maxId < |chain|
  {
    && GetTimestamp(chain, p.tag) == Some(p.ts)
    && (minId == maxId ==> p.tag.NotANumber?)
    && (minId < maxId ==> p.tag.Block? && minId <= p.tag.id <= maxId)
    && (minId > maxId && (maxId >= 0 || ts != chain[minId]) ==> p.tag == Block(minId))
    && (minId < maxId && ts < chain[minId] ==> p.tag == Block(minId))
    && (minId < maxId && ts > chain[maxId] ==> p.tag == Block(maxId))
  }

  /**
   One probe: it throws exactly when a bound lies beyond the chain, and otherwise stays between the bounds.
   `asked` are the numbers of the blocks that the provider was asked for.
   */
  method Search(chain: Chain, ts: int, minId: int, maxId: int) returns (r: Result<Probe>, ghost asked: set<int>)
    requires Increasing(chain) && chain != [] && minId >= 0
    ensures minId in asked
    ensures r.Ok? ==> asked == {minId, maxId} + if r.value.tag.Block? then {r.value.tag.id} else {}
    ensures r.Thrown? ==> asked == if minId >= |chain| then {minId} else {minId, maxId}
    ensures r.Thrown? <==> minId >= |chain| || maxId >= |chain|
    ensures r.Ok? ==> IsProbe(chain, ts, minId, maxId, r.value)
  {
    asked := {minId};
    var minTs := GetTimestamp(chain, Block(minId));
    if minTs.None? {
      return Thrown("TypeError"), asked;
    }
    asked := asked + {maxId};
    var maxTs := GetTimestamp(chain, Block(maxId));
    if maxTs.None? {
      return Thrown("TypeError"), asked;
    }
    var tag := Clamped(Interpolate(ts, minId, maxId, minTs.value, maxTs.value), minId, maxId);
    InterpolateIsNaNIff(ts, minId, maxId, minTs.value, maxTs.value);
    if minId < maxId {
      InterpolateOutside(ts, minId, maxId, minTs.value, maxTs.value);
    }
    asked := asked + if tag.Block? then {tag.id} else {};
    return Ok(Probe(tag, GetTimestamp(chain, tag).value)), asked;
  }

  /** All blocks below `minId` are earlier than `ts` and all above `maxId` are later. */
  ghost predicate Brackets(chain: Chain, ts: int, minId: int, maxId: int) {
    && (forall i :: 0 <= i < minId && i < |chain| ==> chain[i] < ts)
    && (forall i :: maxId < i < |chain| && 0 <= i ==> chain[i] > ts)
  }

  lemma BracketsNarrow(chain: Chain, ts: int, minId: int, maxId: int, id: int)
    requires Increasing(chain) && Brackets(chain, ts, minId, maxId) && 0 <= id < |chain|
    ensures chain[id] < ts ==> Brackets(chain, ts, id + 1, maxId)
    ensures chain[id] > ts ==> Brackets(chain, ts, minId, id - 1)
  {
  }

  /** The block is the one at `ts`, or next to the place where `ts` belongs. */
  ghost predicate IsNearest(chain: Chain, ts: int, id: int) {
    && 0 <= id < |chain|
    && (ts in chain ==> chain[id] == ts)
    && Earlier(chain, ts) - 1 <= id <= Earlier(chain, ts)
  }

  /** Where the search stops, the block is the nearest one. */
  lemma FoundIsNearest(chain: Chain, ts: int, minId: int, maxId: int, id: int)
    requires Increasing(chain) && Brackets(chain, ts, minId, maxId)
    requires 0 <= minId && maxId < |chain| && 0 <= id < |chain|
    requires chain[id] == ts || (minId == maxId == id) || (minId == maxId + 1 && id == minId)
    ensures IsNearest(chain, ts, id)
  {
    EarlierIs(chain, ts, if chain[id] < ts then id + 1 else id);
  }

  // ----- The state of the loop -----

  ghost predicate Searching(chain: Chain, ts: int, minId: int, maxId: int, cur: Probe)
    requires chain != []
  {
    var n := |chain|;
    && 0 <= minId <= n && -1 <= maxId < n
    && Brackets(chain, ts, minId, maxId)
    && (n == 1 ==> minId == maxId && cur.tag.NotANumber?)
    && (n > 1 ==> cur.tag.Block? && 0 <= cur.tag.id < n && cur.ts == chain[cur.tag.id])
    && (minId < maxId ==> minId <= cur.tag.id <= maxId)
    && (n > 1 && minId >= maxId ==> minId == maxId + 1 && cur.tag == Block(minId))
    && (n > 1 && ts > chain[n - 1] ==> minId < maxId && cur.tag.id == maxId == n - 1)
    && (n > 1 && ts < chain[0] ==> minId == cur.tag.id == 0)
  }

  /** The bounds after a probe that did not meet `ts`. */
  function Narrowed(ts: int, minId: int, maxId: int, cur: Probe): (int, int)
    requires cur.tag.Block?
  {
    if cur.ts < ts then (cur.tag.id + 1, maxId) else (minId, cur.tag.id - 1)
  }

  lemma SearchStarts(chain: Chain, ts: int, cur: Probe)
    requires Increasing(chain) && chain != [] && IsProbe(chain, ts, 0, |chain| - 1, cur)
    ensures Searching(chain, ts, 0, |chain| - 1, cur)
  {
  }

  lemma SearchGoesOn(chain: Chain, ts: int, minId: int, maxId: int, cur: Probe, next: Probe)
    requires Increasing(chain) && chain != []
    requires Searching(chain, ts, minId, maxId, cur) && minId < maxId && cur.ts != ts
    requires var (lower, upper) := Narrowed(ts, minId, maxId, cur);
             lower != upper && lower < |chain| && IsProbe(chain, ts, lower, upper, next)
    ensures var (lower, upper) := Narrowed(ts, minId, maxId, cur); Searching(chain, ts, lower, upper, next)
  {
    BracketsNarrow(chain, ts, minId, maxId, cur.tag.id);
  }

  /** The bounds meet in the nearest block. */
  lemma SearchMeets(chain: Chain, ts: int, minId: int, maxId: int, cur: Probe)
    requires Increasing(chain) && chain != []
    requires Searching(chain, ts, minId, maxId, cur) && minId < maxId && cur.ts != ts
    requires var (lower, upper) := Narrowed(ts, minId, maxId, cur); lower == upper
    ensures IsNearest(chain, ts, Narrowed(ts, minId, maxId, cur).0)
    ensures chain[0] <= ts <= chain[|chain| - 1]
  {
    BracketsNarrow(chain, ts, minId, maxId, cur.tag.id);
    var (lower, upper) := Narrowed(ts, minId, maxId, cur);
    FoundIsNearest(chain, ts, lower, upper, lower);
  }

  /** The chain has a block of that number, or the search runs over its end because `ts` lies outside. */
  ghost predicate IsAskedFor(chain: Chain, ts: int, id: int)
    requires chain != []
  {
    || 0 <= id < |chain|
    || (id == -1 && |chain| > 1 && ts < chain[0])
    || (id == |chain| > 1 && ts > chain[|chain| - 1])
  }

  ghost predicate AreAskedFor(chain: Chain, ts: int, asked: set<int>)
    requires chain != []
  {
    forall id :: id in asked ==> IsAskedFor(chain, ts, id)
  }

  /** The numbers asked for by the probe after the one that narrowed the bounds. */
  lemma NarrowedAreAskedFor(chain: Chain, ts: int, minId: int, maxId: int, cur: Probe)
    requires Increasing(chain) && chain != []
    requires Searching(chain, ts, minId, maxId, cur) && minId < maxId && cur.ts != ts
    ensures var (lower, upper) := Narrowed(ts, minId, maxId, cur);
            && IsAskedFor(chain, ts, lower) && IsAskedFor(chain, ts, upper)
            && (lower >= |chain| <==> ts > chain[|chain| - 1])
            && (ts < chain[0] ==> lower < upper || upper == -1)
  {
  }

  /**
   A time after the last of several blocks throws, since the search asks for the block after it. A chain of one
   block gives NaN, whatever the time. In every other case, a time before the first block included, the search
   ends at the block at `ts`, or at a neighbour of the place where `ts` belongs. It asks for blocks inside the
   chain only, unless there are several and `ts` is before the first or after the last one.
   */
  method FindBlock(chain: Chain, ts: int) returns (r: Result<BlockTag>, ghost asked: set<int>)
    requires Increasing(chain) && chain != []
    ensures r.Thrown? <==> |chain| > 1 && ts > chain[|chain| - 1]
    ensures r == Ok(NotANumber) <==> |chain| == 1
    ensures r.Ok? && r.value.Block? ==> IsNearest(chain, ts, r.value.id)
    ensures (forall id :: id in asked ==> 0 <= id < |chain|) <==> |chain| == 1 || chain[0] <= ts <= chain[|chain| - 1]
    ensures -1 in asked <==> |chain| > 1 && ts < chain[0]
    ensures |chain| in asked <==> |chain| > 1 && ts > chain[|chain| - 1]
    ensures forall id :: id in asked ==> -1 <= id <= |chain|
  {
    var minId, maxId := 0, |chain| - 1;
    var probe;
    probe, asked := Search(chain, ts, minId, maxId);
    var cur := probe.value;
    SearchStarts(chain, ts, cur);
    while cur.ts != ts && minId < maxId
      invariant Searching(chain, ts, minId, maxId, cur) && AreAskedFor(chain, ts, asked)
      invariant |chain| > 1 && ts < chain[0] ==> minId < maxId || -1 in asked
      decreases maxId - minId
    {
      var curId := cur.tag.id;
      ghost var lower, upper, last := minId, maxId, cur;
      NarrowedAreAskedFor(chain, ts, minId, maxId, cur);
      if cur.ts < ts {
        minId := curId + 1;
      } else {
        maxId := curId - 1;
      }
      if maxId == minId {
        SearchMeets(chain, ts, lower, upper, last);
        return Ok(Block(maxId)), asked;
      }
      ghost var more;
      probe, more := Search(chain, ts, minId, maxId);
      asked := asked + more;
      if probe.Thrown? {
        return Thrown(probe.reason), asked;
      }
      cur := probe.value;
      SearchGoesOn(chain, ts, lower, upper, last, cur);
    }
    if |chain| > 1 {
      FoundIsNearest(chain, ts, minId, maxId, cur.tag.id);
    }
    return Ok(cur.tag), asked;
  }
}
