/** JavaScript maps and records, as their entries in insertion order. */
module Entries {
  import opened Prelude

  predicate UniqueKeys<V>(entries: seq<(Text, V)>) {
    forall i, j :: 0 <= i < j < |entries| ==> entries[i].0 != entries[j].0
  }

  /** `Map.set`, or an assignment to a property: a known key keeps its place. */
  function SetEntry<V>(entries: seq<(Text, V)>, key: Text, value: V): seq<(Text, V)> {
    if entries == [] then [(key, value)]
    else if entries[0].0 == key then [(key, value)] + entries[1..]
    else [entries[0]] + SetEntry(entries[1..], key, value)
  }

  /** `new Map(pairs)`. */
  function NewMap<V>(pairs: seq<(Text, V)>): seq<(Text, V)> {
    if pairs == [] then []
    else
      var last := pairs[|pairs| - 1];
      SetEntry(NewMap(pairs[..|pairs| - 1]), last.0, last.1)
  }

  lemma {:induction false} SetNewEntry<V>(entries: seq<(Text, V)>, key: Text, value: V)
    requires forall i :: 0 <= i < |entries| ==> entries[i].0 != key
    ensures SetEntry(entries, key, value) == entries + [(key, value)]
  {
    if entries != [] {
      SetNewEntry(entries[1..], key, value);
      assert entries + [(key, value)] == [entries[0]] + (entries[1..] + [(key, value)]);
    }
  }

  lemma {:induction false} SetEntryKeys<V>(entries: seq<(Text, V)>, key: Text, value: V)
    requires UniqueKeys(entries)
    ensures UniqueKeys(SetEntry(entries, key, value))
    ensures forall i :: 0 <= i < |SetEntry(entries, key, value)| ==>
                          var k := SetEntry(entries, key, value)[i].0;
                          k == key || exists j :: 0 <= j < |entries| && entries[j].0 == k
  {
    if entries != [] && entries[0].0 != key {
      SetEntryKeys(entries[1..], key, value);
    }
  }

  /** Building a map keeps its keys apart, whatever the pairs. */
  lemma {:induction false} NewMapIsMap<V>(pairs: seq<(Text, V)>)
    ensures UniqueKeys(NewMap(pairs))
  {
    if pairs != [] {
      var n := |pairs| - 1;
      NewMapIsMap(pairs[..n]);
      SetEntryKeys(NewMap(pairs[..n]), pairs[n].0, pairs[n].1);
    }
  }

  /** The entries of a map build the same map again, in the same order. */
  lemma {:induction false} NewMapOfMap<V>(entries: seq<(Text, V)>)
    requires UniqueKeys(entries)
    ensures NewMap(entries) == entries
  {
    if entries != [] {
      var n := |entries| - 1;
      NewMapOfMap(entries[..n]);
      SetNewEntry(entries[..n], entries[n].0, entries[n].1);
      assert entries == entries[..n] + [(entries[n].0, entries[n].1)];
    }
  }
}
