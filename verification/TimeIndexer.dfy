/** The index from block timestamps to block numbers, fed by the text output of one process per source. */
module TimeIndexer {
  import opened Prelude

  // ----- Cutting output into lines -----

  /** The complete lines of a text: `text.split('\n')` without its last part. */
  function Lines(text: string): seq<string> {
    if text == [] then []
    else
      var before := text[..|text| - 1];
      Lines(before) + if text[|text| - 1] == '\n' then [Remainder(before)] else []
  }

  /** The text after the last line end: the last part of `text.split('\n')`. */
  function Remainder(text: string): string {
    if text == [] || text[|text| - 1] == '\n' then ""
    else Remainder(text[..|text| - 1]) + [text[|text| - 1]]
  }

  ghost function WithLineEnds(lines: seq<string>): string {
    if lines == [] then "" else WithLineEnds(lines[..|lines| - 1]) + lines[|lines| - 1] + ['\n']
  }

  lemma NextCharacter(text: string, c: char)
    ensures Lines(text + [c]) == Lines(text) + if c == '\n' then [Remainder(text)] else []
    ensures Remainder(text + [c]) == if c == '\n' then "" else Remainder(text) + [c]
  {
    assert (text + [c])[..|text|] == text;
  }

  lemma NextLine(lines: seq<string>, line: string)
    ensures WithLineEnds(lines + [line]) == WithLineEnds(lines) + line + ['\n']
  {
    assert (lines + [line])[..|lines|] == lines;
  }

  /** Putting the line ends back gives the text, and no part holds a line end. */
  ghost predicate IsExact(text: string) {
    && WithLineEnds(Lines(text)) + Remainder(text) == text
    && '\n' !in Remainder(text)
    && forall line :: line in Lines(text) ==> '\n' !in line
  }

  lemma NextIsExact(text: string, c: char)
    requires IsExact(text)
    ensures IsExact(text + [c])
  {
    NextCharacter(text, c);
    if c == '\n' {
      NextLine(Lines(text), Remainder(text));
    } else {
      assert Lines(text + [c]) == Lines(text);
      assert WithLineEnds(Lines(text)) + (Remainder(text) + [c]) == (WithLineEnds(Lines(text)) + Remainder(text)) + [c];
    }
  }

  lemma {:induction false} SplitIsExact(text: string)
    ensures IsExact(text)
  {
    if text == [] {
      assert Lines(text) == [] && Remainder(text) == "";
    } else {
      var (before, last) := (text[..|text| - 1], text[|text| - 1]);
      assert text == before + [last];
      SplitIsExact(before);
      NextIsExact(before, last);
    }
  }

  lemma {:induction false} RemainderIsOpen(text: string)
    ensures Lines(Remainder(text)) == [] && Remainder(Remainder(text)) == Remainder(text)
  {
    if text != [] && text[|text| - 1] != '\n' {
      var n := |text| - 1;
      RemainderIsOpen(text[..n]);
      NextCharacter(Remainder(text[..n]), text[n]);
    }
  }

  /** The second half of a text continues the line that the first half left open. */
  ghost predicate Joins(first: string, second: string) {
    && Lines(first + second) == Lines(first) + Lines(Remainder(first) + second)
    && Remainder(first + second) == Remainder(Remainder(first) + second)
  }

  lemma AppendCharacter(first: string, second: string, c: char)
    ensures Lines(first + (second + [c])) == Lines(first + second) + if c == '\n' then [Remainder(first + second)] else []
    ensures Remainder(first + (second + [c])) == if c == '\n' then "" else Remainder(first + second) + [c]
  {
    NextCharacter(first + second, c);
    assert first + (second + [c]) == first + second + [c];
  }

  lemma Associates<T>(a: seq<T>, b: seq<T>, c: seq<T>)
    ensures (a + b) + c == a + (b + c)
  {
  }

  lemma JoinsNext(first: string, second: string, c: char)
    requires Joins(first, second)
    ensures Joins(first, second + [c])
  {
    var open := Remainder(first);
    var last := if c == '\n' then [Remainder(open + second)] else [];
    AppendCharacter(first, second, c);
    AppendCharacter(open, second, c);
    Associates(Lines(first), Lines(open + second), last);
    assert Lines(first + (second + [c])) == Lines(first + second) + last;
    assert Lines(open + (second + [c])) == Lines(open + second) + last;
  }

  /** Cutting a text in two loses and repeats no line. */
  lemma {:induction false} SplitJoins(first: string, second: string)
    ensures Joins(first, second)
  {
    if second == [] {
      RemainderIsOpen(first);
      assert first + second == first && Remainder(first) + second == Remainder(first);
    } else {
      var n := |second| - 1;
      SplitJoins(first, second[..n]);
      JoinsNext(first, second[..n], second[n]);
      assert second == second[..n] + [second[n]];
    }
  }

  ghost function Concat(chunks: seq<string>): string {
    if chunks == [] then "" else Concat(chunks[..|chunks| - 1]) + chunks[|chunks| - 1]
  }

  /** The remainder kept after the given chunks. */
  ghost function Kept(chunks: seq<string>): string {
    if chunks == [] then "" else Remainder(Kept(chunks[..|chunks| - 1]) + chunks[|chunks| - 1])
  }

  /** The lines handled for the given chunks, chunk by chunk. */
  ghost function Handled(chunks: seq<string>): seq<string> {
    if chunks == [] then []
    else Handled(chunks[..|chunks| - 1]) + Lines(Kept(chunks[..|chunks| - 1]) + chunks[|chunks| - 1])
  }

  /** However the output is cut into chunks, the lines handled and the remainder kept are those of the whole output. */
  lemma {:induction false} ChunkingIsInvisible(chunks: seq<string>)
    ensures Handled(chunks) == Lines(Concat(chunks)) && Kept(chunks) == Remainder(Concat(chunks))
  {
    if chunks == [] {
    } else {
      var n := |chunks| - 1;
      ChunkingIsInvisible(chunks[..n]);
      SplitJoins(Concat(chunks[..n]), chunks[n]);
    }
  }

  // ----- The index -----

  /** Block number and the sources that reported it. */
  datatype Value = Value(block: nat, sources: seq<string>)

  type Index = map<nat, Value>

  const DEFAULT_VALUE := Value(0, [])

  function Lookup(db: Index, timestamp: nat): Value {
    if timestamp in db then db[timestamp] else DEFAULT_VALUE
  }

  /** One transaction; sources that disagree abort it. */
  function Record(db: Index, source: string, block: nat, timestamp: nat): Result<Index> {
    var value := Lookup(db, timestamp);
    if value.block == 0 && value.sources == [] then Ok(db[timestamp := Value(block, [source])])
    else if value.block != block then Thrown("Sources returned different results")
    else Ok(db[timestamp := Value(block, value.sources + [source])])
  }

  datatype State = State(db: Index, latest: Option<nat>)

  /** What a line of output means: a block number and a timestamp, or nothing that is indexed. */
  type Parser = string -> Option<(nat, nat)>

  predicate IsIndexed(parsed: Option<(nat, nat)>) {
    parsed.Some? && parsed.value.0 != 0 && parsed.value.1 != 0
  }

  function HandleLine(s: State, source: string, parsed: Option<(nat, nat)>): Result<State> {
    if !IsIndexed(parsed) then Ok(s)
    else
      var (block, timestamp) := parsed.value;
      match Record(s.db, source, block, timestamp)
      case Ok(db) => Ok(State(db, Some(timestamp)))
      case Thrown(reason) => Thrown(reason)
  }

  datatype Outcome = Outcome(state: State, thrown: bool)

  /** The state after the given lines; a disagreement stops the rest. */
  function HandleLines(s: State, source: string, lines: seq<string>, parse: Parser): Outcome
    decreases |lines|
  {
    if lines == [] then Outcome(s, false)
    else
      match HandleLine(s, source, parse(lines[0]))
      case Ok(next) => HandleLines(next, source, lines[1..], parse)
      case Thrown(_) => Outcome(s, true)
  }

  /** The block found for a timestamp when `key` is the first indexed timestamp that is not earlier. */
  function Found(db: Index, timestamp: nat, key: Option<nat>): Result<nat> {
    if timestamp == 0 then Ok(0)
    else
      var value := if key.Some? then Lookup(db, key.value) else DEFAULT_VALUE;
      if value.block > 0 && value.sources != [] then Ok(value.block)
      else Thrown("Could not find time indexed blocks for timestamp")
  }

  ghost predicate IsFirstKey(db: Index, timestamp: nat, key: Option<nat>) {
    match key
    case None => forall k :: k in db ==> k < timestamp
    case Some(first) => first in db && timestamp <= first && forall k :: k in db && timestamp <= k ==> first <= k
  }

  /** The index, and the open line of every source. */
  datatype Streams = Streams(state: State, open: map<string, string>)

  function OpenLine(s: Streams, source: string): string {
    if source in s.open then s.open[source] else ""
  }

  /** A chunk of output of a source's process, or the end of that process, which is started again. */
  datatype Event =
    | Data(source: string, text: string)
    | Exit(source: string)

  function Step(s: Streams, parse: Parser, e: Event): Result<Streams> {
    match e
    case Exit(source) => Ok(s.(open := s.open[source := ""]))
    case Data(source, text) =>
      var output := OpenLine(s, source) + text;
      var outcome := HandleLines(s.state, source, Lines(output), parse);
      if outcome.thrown then Thrown("Sources returned different results")
      else Ok(Streams(outcome.state, s.open[source := Remainder(output)]))
  }

  class Indexer {
    var db: Index
    var latestTimestamp: Option<nat>
    /** The open line of every source. */
    var stdout: map<string, string>
    const parse: Parser

    constructor (parse: Parser)
      ensures Model() == State(map[], None) && stdout == map[] && this.parse == parse
    {
      db, latestTimestamp, stdout := map[], None, map[];
      this.parse := parse;
    }

    function Model(): State
      reads this
    {
      State(db, latestTimestamp)
    }

    function Open(source: string): string
      reads this
    {
      if source in stdout then stdout[source] else ""
    }

    ghost function View(): Streams
      reads this
    {
      Streams(Model(), stdout)
    }

    /** One chunk of output of one source; the open line is cut off before any line is handled. */
    method OnData(source: string, data: string) returns (r: Result<()>)
      modifies this
      ensures stdout == old(stdout)[source := Remainder(old(Open(source)) + data)]
      ensures HandleLines(old(Model()), source, Lines(old(Open(source)) + data), parse) == Outcome(Model(), r.Thrown?)
      ensures r.Ok? <==> Step(old(View()), parse, Data(source, data)).Ok?
      ensures r.Ok? ==> Step(old(View()), parse, Data(source, data)) == Ok(View())
    {
      var text := Open(source) + data;
      stdout := stdout[source := Remainder(text)];
      var entries := Lines(text);
      var i := 0;
      while i < |entries|
        invariant 0 <= i <= |entries|
        invariant stdout == old(stdout)[source := Remainder(text)]
        invariant HandleLines(Model(), source, entries[i..], parse) == HandleLines(old(Model()), source, entries, parse)
      {
        assert entries[i..][1..] == entries[i + 1..];
        var parsed := parse(entries[i]);
        if IsIndexed(parsed) {
          var recorded := Record(db, source, parsed.value.0, parsed.value.1);
          if recorded.Thrown? {
            return Thrown(recorded.reason);
          }
          db := recorded.value;
          latestTimestamp := Some(parsed.value.1);
        }
        i := i + 1;
      }
      return Ok(());
    }

    /** A process that exits is started again, with nothing read of its output. */
    method Restart(source: string)
      modifies this`stdout
      ensures stdout == old(stdout)[source := ""]
      ensures Step(old(View()), parse, Exit(source)) == Ok(View())
    {
      stdout := stdout[source := ""];
    }

    /** `getRange` from `timestamp`, limited to one entry, then the checks on it. */
    method Find(timestamp: nat) returns (r: Result<nat>)
      ensures exists key :: IsFirstKey(db, timestamp, key) && r == Found(db, timestamp, key)
    {
      var key: Option<nat> := None;
      var todo := db.Keys;
      while todo != {}
        invariant todo <= db.Keys
        invariant key.Some? ==> key.value in db && timestamp <= key.value
        invariant forall k :: k in db && k !in todo && timestamp <= k ==> key.Some? && key.value <= k
      {
        var k :| k in todo;
        todo := todo - {k};
        if timestamp <= k && (key.None? || k < key.value) {
          key := Some(k);
        }
      }
      assert IsFirstKey(db, timestamp, key);
      return Found(db, timestamp, key);
    }
  }

  // ----- Any interleaving of agreeing sources -----

  /** Block timestamps, strictly increasing and not zero. */
  type Chain = seq<nat>

  ghost predicate Increasing(chain: Chain) {
    && (forall i :: 0 <= i < |chain| ==> chain[i] > 0)
    && forall i, j :: 0 <= i < j < |chain| ==> chain[i] < chain[j]
  }

  const INITIAL := Streams(State(map[], None), map[])

  ghost function Run(parse: Parser, events: seq<Event>): Result<Streams> {
    if events == [] then Ok(INITIAL)
    else
      match Run(parse, events[..|events| - 1])
      case Thrown(reason) => Thrown(reason)
      case Ok(s) => Step(s, parse, events[|events| - 1])
  }

  /** What the present process of a source has printed, all chunks together. */
  ghost function Printed(events: seq<Event>, source: string): string {
    if events == [] then ""
    else
      var (earlier, e) := (events[..|events| - 1], events[|events| - 1]);
      if e.source != source then Printed(earlier, source)
      else
        match e
        case Data(_, text) => Printed(earlier, source) + text
        case Exit(_) => ""
  }

  /** The number of lines that are indexed. */
  ghost function Indexed(lines: seq<string>, parse: Parser): nat {
    if lines == [] then 0
    else Indexed(lines[..|lines| - 1], parse) + if IsIndexed(parse(lines[|lines| - 1])) then 1 else 0
  }

  /** Among other lines, the lines name consecutive blocks of the chain, from the start block on. */
  ghost predicate NamesBlocks(lines: seq<string>, parse: Parser, chain: Chain, startBlock: nat) {
    forall i :: 0 <= i < |lines| && IsIndexed(parse(lines[i])) ==>
      var block := startBlock + Indexed(lines[..i], parse);
      block < |chain| && parse(lines[i]) == Some((block, chain[block]))
  }

  /** At any time, the complete lines a process has printed name consecutive blocks, however they were cut into chunks. */
  ghost predicate PrintsBlocks(events: seq<Event>, parse: Parser, chain: Chain, startBlock: nat) {
    events != [] ==>
      && PrintsBlocks(events[..|events| - 1], parse, chain, startBlock)
      && NamesBlocks(Lines(Printed(events, events[|events| - 1].source)), parse, chain, startBlock)
  }

  ghost predicate IsBlockTime(chain: Chain, startBlock: nat, top: nat, k: nat)
    requires top <= |chain|
  {
    exists i :: startBlock <= i < top && chain[i] == k
  }

  /** The index holds exactly the blocks from the start block up to `top`, each under its own timestamp. */
  ghost predicate HoldsBlocks(db: Index, chain: Chain, startBlock: nat, top: nat) {
    && startBlock <= top <= |chain|
    && (forall k :: k in db ==> IsBlockTime(chain, startBlock, top, k))
    && forall i :: startBlock <= i < top ==>
         chain[i] in db && db[chain[i]].block == i && db[chain[i]].sources != []
  }

  ghost predicate Indexes(s: State, chain: Chain, startBlock: nat, top: nat) {
    HoldsBlocks(s.db, chain, startBlock, top) && (s.latest.Some? ==> s.latest.value in s.db)
  }

  /** The open line of a source ends what its process printed, and the index is as far as its lines are. */
  ghost predicate KeepsUp(s: Streams, events: seq<Event>, source: string, parse: Parser, startBlock: nat, top: nat) {
    && OpenLine(s, source) == Remainder(Printed(events, source))
    && startBlock + Indexed(Lines(Printed(events, source)), parse) <= top
  }

  lemma RecordKeeps(db: Index, chain: Chain, startBlock: nat, top: nat, source: string, block: nat)
    requires Increasing(chain) && 0 < startBlock
    requires HoldsBlocks(db, chain, startBlock, top) && startBlock <= block <= top && block < |chain|
    ensures Record(db, source, block, chain[block]).Ok?
    ensures chain[block] in Record(db, source, block, chain[block]).value
    ensures HoldsBlocks(Record(db, source, block, chain[block]).value, chain, startBlock, if block == top then top + 1 else top)
  {
    if block == top {
      assert !IsBlockTime(chain, startBlock, top, chain[top]);
    } else {
      assert chain[block] in db;
    }
    var after := Record(db, source, block, chain[block]).value;
    var to := if block == top then top + 1 else top;
    forall k | k in after ensures IsBlockTime(chain, startBlock, to, k) {
      if k == chain[block] {
      } else {
        assert IsBlockTime(chain, startBlock, top, k);
      }
    }
  }

  lemma IndexedNext(lines: seq<string>, line: string, parse: Parser)
    ensures Indexed(lines + [line], parse) == Indexed(lines, parse) + if IsIndexed(parse(line)) then 1 else 0
  {
    assert (lines + [line])[..|lines|] == lines;
  }

  /** A block that the index has, or that comes next, is recorded. */
  lemma BlockIndexes(s: State, chain: Chain, startBlock: nat, top: nat, source: string, block: nat)
    requires Increasing(chain) && startBlock > 0 && Indexes(s, chain, startBlock, top)
    requires startBlock <= block <= top && block < |chain|
    ensures IsIndexed(Some((block, chain[block]))) && HandleLine(s, source, Some((block, chain[block]))).Ok?
    ensures Indexes(HandleLine(s, source, Some((block, chain[block]))).value, chain, startBlock, if block == top then top + 1 else top)
  {
    RecordKeeps(s.db, chain, startBlock, top, source, block);
  }

  /** A line that names the next block of its process is recorded, whatever the other processes have reached. */
  lemma LineIndexes(s: State, chain: Chain, startBlock: nat, top: nat, source: string, block: nat, parsed: Option<(nat, nat)>)
    returns (after: nat)
    requires Increasing(chain) && startBlock > 0 && Indexes(s, chain, startBlock, top)
    requires startBlock <= block <= top
    requires IsIndexed(parsed) ==> block < |chain| && parsed == Some((block, chain[block]))
    ensures top <= after && HandleLine(s, source, parsed).Ok?
    ensures Indexes(HandleLine(s, source, parsed).value, chain, startBlock, after)
    ensures IsIndexed(parsed) ==> block + 1 <= after
  {
    after := top;
    if IsIndexed(parsed) {
      BlockIndexes(s, chain, startBlock, top, source, block);
      after := if block == top then top + 1 else top;
    }
  }

  /** The lines after the first one go on naming blocks. */
  lemma NamesNext(before: seq<string>, lines: seq<string>, parse: Parser, chain: Chain, startBlock: nat)
    requires lines != [] && NamesBlocks(before + lines, parse, chain, startBlock)
    ensures before + [lines[0]] + lines[1..] == before + lines
    ensures IsIndexed(parse(lines[0])) ==>
              var block := startBlock + Indexed(before, parse);
              block < |chain| && parse(lines[0]) == Some((block, chain[block]))
  {
    assert (before + lines)[|before|] == lines[0] && (before + lines)[..|before|] == before;
  }

  lemma {:induction false} LinesIndex(s: State, chain: Chain, startBlock: nat, top: nat, source: string, before: seq<string>, lines: seq<string>, parse: Parser)
    returns (after: nat)
    requires Increasing(chain) && startBlock > 0 && Indexes(s, chain, startBlock, top)
    requires startBlock + Indexed(before, parse) <= top && NamesBlocks(before + lines, parse, chain, startBlock)
    ensures top <= after && !HandleLines(s, source, lines, parse).thrown
    ensures Indexes(HandleLines(s, source, lines, parse).state, chain, startBlock, after)
    ensures startBlock + Indexed(before + lines, parse) <= after
    decreases |lines|
  {
    if lines == [] {
      assert before + lines == before;
      after := top;
    } else {
      var line, rest := lines[0], lines[1..];
      NamesNext(before, lines, parse, chain, startBlock);
      IndexedNext(before, line, parse);
      after := LineIndexes(s, chain, startBlock, top, source, startBlock + Indexed(before, parse), parse(line));
      after := LinesIndex(HandleLine(s, source, parse(line)).value, chain, startBlock, after, source, before + [line], rest, parse);
    }
  }

  /** A chunk of one source; the other sources stay as they are. */
  lemma DataIndexes(s: Streams, chain: Chain, startBlock: nat, top: nat, events: seq<Event>, source: string, text: string, parse: Parser)
    returns (after: nat)
    requires Increasing(chain) && startBlock > 0 && Indexes(s.state, chain, startBlock, top)
    requires KeepsUp(s, events, source, parse, startBlock, top)
    requires NamesBlocks(Lines(Printed(events, source) + text), parse, chain, startBlock)
    ensures top <= after && Step(s, parse, Data(source, text)).Ok?
    ensures Indexes(Step(s, parse, Data(source, text)).value.state, chain, startBlock, after)
    ensures KeepsUp(Step(s, parse, Data(source, text)).value, events + [Data(source, text)], source, parse, startBlock, after)
  {
    var printed := Printed(events, source);
    SplitJoins(printed, text);
    after := LinesIndex(s.state, chain, startBlock, top, source, Lines(printed), Lines(Remainder(printed) + text), parse);
    PrintedNext(events, Data(source, text), source);
  }

  lemma PrintedNext(events: seq<Event>, e: Event, source: string)
    ensures Printed(events + [e], source) ==
            if e.source != source then Printed(events, source) else if e.Data? then Printed(events, source) + e.text else ""
  {
    assert (events + [e])[..|events|] == events;
  }

  lemma OthersKeepUp(s: Streams, t: Streams, events: seq<Event>, e: Event, source: string, parse: Parser, startBlock: nat, top: nat, after: nat)
    requires KeepsUp(s, events, source, parse, startBlock, top) && top <= after && e.source != source
    requires OpenLine(t, source) == OpenLine(s, source)
    ensures KeepsUp(t, events + [e], source, parse, startBlock, after)
  {
    PrintedNext(events, e, source);
  }

  lemma StepIndexes(s: Streams, chain: Chain, startBlock: nat, top: nat, events: seq<Event>, e: Event, parse: Parser)
    returns (after: nat)
    requires Increasing(chain) && startBlock > 0 && Indexes(s.state, chain, startBlock, top)
    requires forall source :: KeepsUp(s, events, source, parse, startBlock, top)
    requires NamesBlocks(Lines(Printed(events + [e], e.source)), parse, chain, startBlock)
    ensures Step(s, parse, e).Ok? && Indexes(Step(s, parse, e).value.state, chain, startBlock, after)
    ensures forall source :: KeepsUp(Step(s, parse, e).value, events + [e], source, parse, startBlock, after)
  {
    PrintedNext(events, e, e.source);
    after := top;
    if e.Data? {
      after := DataIndexes(s, chain, startBlock, top, events, e.source, e.text, parse);
    }
    var t := Step(s, parse, e).value;
    forall source ensures KeepsUp(t, events + [e], source, parse, startBlock, after) {
      if source != e.source {
        OthersKeepUp(s, t, events, e, source, parse, startBlock, top, after);
      }
    }
  }

  /** For any interleaving of chunks and restarts of agreeing sources, the index holds exactly the blocks up to some top block. */
  lemma {:induction false} RunIndexes(chain: Chain, startBlock: nat, events: seq<Event>, parse: Parser) returns (top: nat)
    requires Increasing(chain) && 0 < startBlock <= |chain| && PrintsBlocks(events, parse, chain, startBlock)
    ensures Run(parse, events).Ok? && Indexes(Run(parse, events).value.state, chain, startBlock, top)
    ensures forall source :: KeepsUp(Run(parse, events).value, events, source, parse, startBlock, top)
  {
    if events == [] {
      top := startBlock;
    } else {
      var (earlier, e) := (events[..|events| - 1], events[|events| - 1]);
      assert events == earlier + [e];
      top := RunIndexes(chain, startBlock, earlier, parse);
      top := StepIndexes(Run(parse, earlier).value, chain, startBlock, top, earlier, e, parse);
    }
  }

  /** `block` is the first block from the start block on that is not earlier than `timestamp`. */
  ghost predicate IsFirstBlock(chain: Chain, startBlock: nat, timestamp: nat, block: nat) {
    && startBlock <= block < |chain|
    && timestamp <= chain[block]
    && forall i :: startBlock <= i < block ==> chain[i] < timestamp
  }

  lemma FindOnIndex(s: State, chain: Chain, startBlock: nat, top: nat, timestamp: nat, key: Option<nat>)
    requires Increasing(chain) && 0 < startBlock && Indexes(s, chain, startBlock, top) && IsFirstKey(s.db, timestamp, key)
    requires timestamp != 0 && s.latest.Some? && timestamp <= s.latest.value
    ensures var r := Found(s.db, timestamp, key); r.Ok? && IsFirstBlock(chain, startBlock, timestamp, r.value)
  {
    assert key.Some?;
    assert IsBlockTime(chain, startBlock, top, key.value);
    var block :| startBlock <= block < top && chain[block] == key.value;
    forall i | startBlock <= i < block ensures chain[i] < timestamp {
      assert chain[i] in s.db;
    }
  }

  /**
   However agreeing sources interleave and restart, and however their output is cut into chunks, nothing throws, and
   every nonzero timestamp up to the latest one finds the first block from the start block on that is not earlier.
   */
  lemma FindAgreesWithChain(chain: Chain, startBlock: nat, events: seq<Event>, parse: Parser, timestamp: nat, key: Option<nat>)
    requires Increasing(chain) && 0 < startBlock <= |chain| && PrintsBlocks(events, parse, chain, startBlock)
    requires timestamp != 0
    requires Run(parse, events).Ok? ==>
               && IsFirstKey(Run(parse, events).value.state.db, timestamp, key)
               && Run(parse, events).value.state.latest.Some?
               && timestamp <= Run(parse, events).value.state.latest.value
    ensures Run(parse, events).Ok?
    ensures var r := Found(Run(parse, events).value.state.db, timestamp, key);
            r.Ok? && IsFirstBlock(chain, startBlock, timestamp, r.value)
  {
    var top := RunIndexes(chain, startBlock, events, parse);
    FindOnIndex(Run(parse, events).value.state, chain, startBlock, top, timestamp, key);
  }

  // ----- Any start blocks -----

  /** Whatever block each process started at, a line that is indexed names a block of the chain. */
  ghost predicate NamesChain(lines: seq<string>, parse: Parser, chain: Chain) {
    forall line :: line in lines && IsIndexed(parse(line)) ==> IsBlockOf(chain, parse(line).value)
  }

  predicate IsBlockOf(chain: Chain, named: (nat, nat)) {
    named.0 < |chain| && chain[named.0] == named.1
  }

  ghost predicate PrintsChain(events: seq<Event>, parse: Parser, chain: Chain) {
    events != [] ==>
      && PrintsChain(events[..|events| - 1], parse, chain)
      && NamesChain(Lines(Printed(events, events[|events| - 1].source)), parse, chain)
  }

  /** Consecutive blocks from a start block are blocks of the chain. */
  lemma {:induction false} BlocksAreChain(events: seq<Event>, parse: Parser, chain: Chain, startBlock: nat)
    requires PrintsBlocks(events, parse, chain, startBlock)
    ensures PrintsChain(events, parse, chain)
  {
    if events != [] {
      BlocksAreChain(events[..|events| - 1], parse, chain, startBlock);
    }
  }

  ghost predicate AgreesWithChain(db: Index, chain: Chain) {
    forall k :: k in db ==> 0 < db[k].block && IsBlockOf(chain, (db[k].block, k)) && db[k].sources != []
  }

  /** The blocks named by the lines are indexed. */
  ghost predicate HoldsNamed(db: Index, lines: seq<string>, parse: Parser) {
    forall line :: line in lines && IsIndexed(parse(line)) ==> parse(line).value.1 in db
  }

  lemma LineAgrees(s: State, chain: Chain, source: string, parsed: Option<(nat, nat)>)
    requires Increasing(chain) && AgreesWithChain(s.db, chain)
    requires IsIndexed(parsed) ==> IsBlockOf(chain, parsed.value)
    ensures HandleLine(s, source, parsed).Ok?
    ensures var next := HandleLine(s, source, parsed).value;
            && AgreesWithChain(next.db, chain) && s.db.Keys <= next.db.Keys
            && (IsIndexed(parsed) ==> parsed.value.1 in next.db)
  {
  }

  lemma {:induction false} LinesAgree(s: State, chain: Chain, source: string, lines: seq<string>, parse: Parser)
    requires Increasing(chain) && AgreesWithChain(s.db, chain) && NamesChain(lines, parse, chain)
    ensures !HandleLines(s, source, lines, parse).thrown
    ensures var after := HandleLines(s, source, lines, parse).state;
            AgreesWithChain(after.db, chain) && s.db.Keys <= after.db.Keys && HoldsNamed(after.db, lines, parse)
    decreases |lines|
  {
    if lines != [] {
      LineAgrees(s, chain, source, parse(lines[0]));
      LinesAgree(HandleLine(s, source, parse(lines[0])).value, chain, source, lines[1..], parse);
      assert forall line :: line in lines ==> line == lines[0] || line in lines[1..];
    }
  }

  /** The open line of a source ends what its process printed, and the blocks of its lines are indexed. */
  ghost predicate FollowsChain(s: Streams, events: seq<Event>, source: string, parse: Parser) {
    && OpenLine(s, source) == Remainder(Printed(events, source))
    && HoldsNamed(s.state.db, Lines(Printed(events, source)), parse)
  }

  lemma DataAgrees(s: Streams, chain: Chain, events: seq<Event>, source: string, text: string, parse: Parser)
    requires Increasing(chain) && AgreesWithChain(s.state.db, chain) && FollowsChain(s, events, source, parse)
    requires NamesChain(Lines(Printed(events, source) + text), parse, chain)
    ensures Step(s, parse, Data(source, text)).Ok?
    ensures var t := Step(s, parse, Data(source, text)).value;
            && AgreesWithChain(t.state.db, chain) && s.state.db.Keys <= t.state.db.Keys
            && FollowsChain(t, events + [Data(source, text)], source, parse)
  {
    var printed := Printed(events, source);
    SplitJoins(printed, text);
    LinesAgree(s.state, chain, source, Lines(Remainder(printed) + text), parse);
    PrintedNext(events, Data(source, text), source);
  }

  lemma OthersFollow(s: Streams, t: Streams, events: seq<Event>, e: Event, source: string, parse: Parser)
    requires FollowsChain(s, events, source, parse) && s.state.db.Keys <= t.state.db.Keys && e.source != source
    requires OpenLine(t, source) == OpenLine(s, source)
    ensures FollowsChain(t, events + [e], source, parse)
  {
    PrintedNext(events, e, source);
  }

  ghost predicate AllFollowChain(s: Streams, events: seq<Event>, parse: Parser) {
    forall source :: FollowsChain(s, events, source, parse)
  }

  lemma ExitAgrees(s: Streams, events: seq<Event>, source: string, parse: Parser)
    ensures Step(s, parse, Exit(source)).Ok? && Step(s, parse, Exit(source)).value.state == s.state
    ensures FollowsChain(Step(s, parse, Exit(source)).value, events + [Exit(source)], source, parse)
  {
    PrintedNext(events, Exit(source), source);
  }

  /** The sources that have nothing to do with the event. */
  lemma AllFollowNext(s: Streams, t: Streams, events: seq<Event>, e: Event, parse: Parser)
    requires AllFollowChain(s, events, parse) && s.state.db.Keys <= t.state.db.Keys
    requires FollowsChain(t, events + [e], e.source, parse)
    requires forall source :: source != e.source ==> OpenLine(t, source) == OpenLine(s, source)
    ensures AllFollowChain(t, events + [e], parse)
  {
    forall source ensures FollowsChain(t, events + [e], source, parse) {
      if source != e.source {
        OthersFollow(s, t, events, e, source, parse);
      }
    }
  }

  lemma StepAgrees(s: Streams, chain: Chain, events: seq<Event>, e: Event, parse: Parser)
    requires Increasing(chain) && AgreesWithChain(s.state.db, chain)
    requires AllFollowChain(s, events, parse)
    requires NamesChain(Lines(Printed(events + [e], e.source)), parse, chain)
    ensures Step(s, parse, e).Ok? && AgreesWithChain(Step(s, parse, e).value.state.db, chain)
    ensures AllFollowChain(Step(s, parse, e).value, events + [e], parse)
  {
    match e {
      case Data(source, text) =>
        PrintedNext(events, e, source);
        DataAgrees(s, chain, events, source, text, parse);
      case Exit(source) => ExitAgrees(s, events, source, parse);
    }
    AllFollowNext(s, Step(s, parse, e).value, events, e, parse);
  }

  lemma RunNext(parse: Parser, earlier: seq<Event>, e: Event)
    ensures Run(parse, earlier + [e]) ==
            match Run(parse, earlier) case Thrown(reason) => Thrown(reason) case Ok(s) => Step(s, parse, e)
  {
    assert (earlier + [e])[..|earlier|] == earlier;
  }

  ghost predicate RunFollowsChain(chain: Chain, events: seq<Event>, parse: Parser) {
    && Run(parse, events).Ok?
    && AgreesWithChain(Run(parse, events).value.state.db, chain)
    && AllFollowChain(Run(parse, events).value, events, parse)
  }

  lemma RunAgreesNext(chain: Chain, earlier: seq<Event>, e: Event, parse: Parser)
    requires Increasing(chain) && RunFollowsChain(chain, earlier, parse)
    requires NamesChain(Lines(Printed(earlier + [e], e.source)), parse, chain)
    ensures RunFollowsChain(chain, earlier + [e], parse)
  {
    StepAgrees(Run(parse, earlier).value, chain, earlier, e, parse);
    RunNext(parse, earlier, e);
  }

  /** Wherever each process starts, nothing throws, the index agrees with the chain, and it has every block of a complete line. */
  lemma {:induction false} RunAgrees(chain: Chain, events: seq<Event>, parse: Parser)
    requires Increasing(chain) && PrintsChain(events, parse, chain)
    ensures RunFollowsChain(chain, events, parse)
  {
    if events != [] {
      var (earlier, e) := (events[..|events| - 1], events[|events| - 1]);
      assert events == earlier + [e];
      RunAgrees(chain, earlier, parse);
      RunAgreesNext(chain, earlier, e, parse);
    }
  }

  lemma FindOnAgreeing(db: Index, chain: Chain, timestamp: nat, key: Option<nat>, block: nat)
    requires Increasing(chain) && AgreesWithChain(db, chain)
    requires timestamp != 0 && IsFirstKey(db, timestamp, key) && IsFirstBlock(chain, 0, timestamp, block)
    ensures Found(db, timestamp, key) == Ok(block) <==> chain[block] in db
  {
    if chain[block] in db {
      assert key.Some? && IsBlockOf(chain, (db[key.value].block, key.value));
      assert key.value == chain[block];
      assert IsBlockOf(chain, (db[chain[block]].block, chain[block]));
    }
  }

  /**
   Wherever each process starts, `find` answers with the first block of the chain that is not earlier than a nonzero
   timestamp exactly when that block is indexed.
   */
  lemma FindAgreesIffIndexed(chain: Chain, events: seq<Event>, parse: Parser, timestamp: nat, key: Option<nat>, block: nat)
    requires Increasing(chain) && PrintsChain(events, parse, chain)
    requires timestamp != 0 && IsFirstBlock(chain, 0, timestamp, block)
    requires Run(parse, events).Ok? ==> IsFirstKey(Run(parse, events).value.state.db, timestamp, key)
    ensures Run(parse, events).Ok?
    ensures var db := Run(parse, events).value.state.db;
            Found(db, timestamp, key) == Ok(block) <==> chain[block] in db
  {
    RunAgrees(chain, events, parse);
    FindOnAgreeing(Run(parse, events).value.state.db, chain, timestamp, key, block);
  }

  /** Time 0 is answered with block 0; any other time is answered exactly when a block at or after it is indexed, the first one. */
  lemma FindAnswersIff(db: Index, chain: Chain, timestamp: nat, key: Option<nat>)
    requires AgreesWithChain(db, chain) && IsFirstKey(db, timestamp, key)
    ensures timestamp == 0 ==> Found(db, timestamp, key) == Ok(0)
    ensures timestamp != 0 ==> (Found(db, timestamp, key).Ok? <==> exists k :: k in db && timestamp <= k)
    ensures timestamp != 0 && Found(db, timestamp, key).Ok? ==>
              var block := Found(db, timestamp, key).value;
              block < |chain| && timestamp <= chain[block] && chain[block] in db &&
              forall k :: k in db && timestamp <= k ==> chain[block] <= k
  {
  }

  const ONLY := "source"

  /** Without a start block: the process names block `first`, and the one after the restart goes on at block `next`. */
  function RestartLater(): seq<Event> {
    [Data(ONLY, "1\n"), Exit(ONLY), Data(ONLY, "2\n")]
  }

  function TwoBlocks(chain: Chain, first: nat, next: nat): Parser
    requires first < |chain| && next < |chain|
  {
    line => if line == "1" then Some((first, chain[first])) else if line == "2" then Some((next, chain[next])) else None
  }

  lemma OneLine(c: char)
    requires c != '\n'
    ensures Lines([c, '\n']) == [[c]] && Remainder([c, '\n']) == ""
  {
    NextCharacter([], c);
    NextCharacter([] + [c], '\n');
    assert [] + [c] == [c] && [c] + ['\n'] == [c, '\n'];
  }

  lemma OneLineHandled(s: State, source: string, line: string, parse: Parser)
    ensures HandleLines(s, source, [line], parse) ==
            match HandleLine(s, source, parse(line)) case Ok(next) => Outcome(next, false) case Thrown(_) => Outcome(s, true)
  {
    assert [line][1..] == [];
  }

  lemma PrintsChainNext(events: seq<Event>, e: Event, parse: Parser, chain: Chain, printed: string)
    requires PrintsChain(events, parse, chain) && Printed(events + [e], e.source) == printed
    requires NamesChain(Lines(printed), parse, chain)
    ensures PrintsChain(events + [e], parse, chain)
  {
    assert (events + [e])[..|events|] == events;
  }

  /** One line of output that names a block not indexed yet. */
  lemma LineRecords(s: Streams, parse: Parser, c: char, block: nat, timestamp: nat)
    requires c != '\n' && OpenLine(s, ONLY) == "" && parse([c]) == Some((block, timestamp))
    requires block > 0 && timestamp > 0 && timestamp !in s.state.db
    ensures var t := Step(s, parse, Data(ONLY, [c, '\n']));
            t.Ok? && t.value.state.db == s.state.db[timestamp := Value(block, [ONLY])] && OpenLine(t.value, ONLY) == ""
  {
    OneLine(c);
    assert OpenLine(s, ONLY) + [c, '\n'] == [c, '\n'];
    OneLineHandled(s.state, ONLY, [c], parse);
  }

  lemma RestartLaterRuns(chain: Chain, first: nat, next: nat)
    requires Increasing(chain) && 0 < first < next < |chain|
    ensures var r := Run(TwoBlocks(chain, first, next), RestartLater());
            r.Ok? && r.value.state.db == map[chain[first] := Value(first, [ONLY]), chain[next] := Value(next, [ONLY])]
  {
    var parse := TwoBlocks(chain, first, next);
    var events := RestartLater();
    RunNext(parse, [], events[0]);
    LineRecords(INITIAL, parse, '1', first, chain[first]);
    RunNext(parse, [events[0]], events[1]);
    RunNext(parse, [events[0], events[1]], events[2]);
    assert [] + [events[0]] == [events[0]] && [events[0]] + [events[1]] == [events[0], events[1]];
    assert events == [events[0], events[1]] + [events[2]];
    LineRecords(Run(parse, [events[0], events[1]]).value, parse, '2', next, chain[next]);
  }

  /** A new process prints one line that names a block. */
  lemma LinePrints(events: seq<Event>, parse: Parser, chain: Chain, c: char)
    requires c != '\n' && PrintsChain(events, parse, chain) && Printed(events, ONLY) == ""
    requires IsIndexed(parse([c])) ==> IsBlockOf(chain, parse([c]).value)
    ensures PrintsChain(events + [Data(ONLY, [c, '\n'])], parse, chain)
  {
    OneLine(c);
    PrintedNext(events, Data(ONLY, [c, '\n']), ONLY);
    assert "" + [c, '\n'] == [c, '\n'];
    PrintsChainNext(events, Data(ONLY, [c, '\n']), parse, chain, [c, '\n']);
  }

  lemma ExitPrints(events: seq<Event>, parse: Parser, chain: Chain)
    requires PrintsChain(events, parse, chain)
    ensures PrintsChain(events + [Exit(ONLY)], parse, chain) && Printed(events + [Exit(ONLY)], ONLY) == ""
  {
    PrintedNext(events, Exit(ONLY), ONLY);
    PrintsChainNext(events, Exit(ONLY), parse, chain, "");
  }

  lemma RestartLaterPrints(chain: Chain, first: nat, next: nat)
    requires first < |chain| && next < |chain|
    ensures PrintsChain(RestartLater(), TwoBlocks(chain, first, next), chain)
  {
    var parse := TwoBlocks(chain, first, next);
    var events := RestartLater();
    LinePrints([], parse, chain, '1');
    ExitPrints([] + [events[0]], parse, chain);
    LinePrints([] + [events[0]] + [events[1]], parse, chain, '2');
    assert events == [] + [events[0]] + [events[1]] + [events[2]];
  }

  /**
   Without a start block a restarted process goes on at the block that is the latest by then: every block skipped
   is lost to `find`, which answers with the one after the gap.
   */
  lemma RestartSkipsBlocks(chain: Chain, first: nat, next: nat, timestamp: nat, block: nat)
    requires Increasing(chain) && 0 < first < block < next < |chain| && IsFirstBlock(chain, 0, timestamp, block)
    ensures PrintsChain(RestartLater(), TwoBlocks(chain, first, next), chain)
    ensures var r := Run(TwoBlocks(chain, first, next), RestartLater());
            && r.Ok? && IsFirstKey(r.value.state.db, timestamp, Some(chain[next]))
            && Found(r.value.state.db, timestamp, Some(chain[next])) == Ok(next)
  {
    RestartLaterPrints(chain, first, next);
    RestartLaterRuns(chain, first, next);
  }

  /** A source that reports another block under an indexed timestamp throws, and the index keeps what it had. */
  lemma DisagreementThrows(db: Index, source: string, block: nat, timestamp: nat)
    requires timestamp in db && db[timestamp].sources != []
    ensures Record(db, source, block, timestamp).Thrown? <==> db[timestamp].block != block
  {
  }
}
