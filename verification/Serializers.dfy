/** The table of serializers by version and type. */
module Serializers {
  import opened Prelude
  import J = Json
  import S = SystemMessage

  type Table<T> = map<int, map<int, T>>

  const ALREADY_REGISTERED := "a serializer for this version and type is already registered"
  const TYPE_ERROR := "TypeError"

  function GetSerializer<T>(table: Table<T>, version: int, messageType: int): Result<T> {
    if version !in table then Thrown(S.UNSUPPORTED_VERSION)
    else if messageType !in table[version] then Thrown(S.UNSUPPORTED_TYPE)
    else Ok(table[version][messageType])
  }

  function Registered<T>(table: Table<T>, version: int, messageType: int, serializer: T): Result<Table<T>> {
    var ofVersion := if version in table then table[version] else map[];
    if messageType in ofVersion then Thrown(ALREADY_REGISTERED)
    else Ok(table[version := ofVersion[messageType := serializer]])
  }

  /** Deleting from a version that was never registered throws; an emptied version stays. */
  function Unregistered<T>(table: Table<T>, version: int, messageType: int): Result<Table<T>> {
    if version !in table then Thrown(TYPE_ERROR) else Ok(table[version := table[version] - {messageType}])
  }

  class Registry<T> {
    var table: Table<T>

    constructor ()
      ensures table == map[]
    {
      table := map[];
    }

    method RegisterSerializer(version: int, messageType: int, serializer: T) returns (thrown: Option<string>)
      modifies this
      ensures match Registered(old(table), version, messageType, serializer)
              case Ok(after) => thrown == None && table == after
              case Thrown(reason) => thrown == Some(reason) && table == old(table)
    {
      if version !in table {
        table := table[version := map[]];
      }
      if messageType in table[version] {
        return Some(ALREADY_REGISTERED);
      }
      table := table[version := table[version][messageType := serializer]];
      return None;
    }

    method UnregisterSerializer(version: int, messageType: int) returns (thrown: Option<string>)
      modifies this
      ensures match Unregistered(old(table), version, messageType)
              case Ok(after) => thrown == None && table == after
              case Thrown(reason) => thrown == Some(reason) && table == old(table)
    {
      if version !in table {
        return Some(TYPE_ERROR);
      }
      table := table[version := table[version] - {messageType}];
      return None;
    }
  }

  /** Unregistering takes back what registering did, except that a version once known stays known. */
  lemma UnregisterUndoesRegister<T>(table: Table<T>, version: int, messageType: int, serializer: T)
    requires Registered(table, version, messageType, serializer).Ok?
    ensures var after := Unregistered(Registered(table, version, messageType, serializer).value, version, messageType);
            && after.Ok?
            && (after.value == table <==> version in table)
            && forall v, t :: GetSerializer(after.value, v, t) == GetSerializer(table, v, t) || (v == version && version !in table)
  {
    var after := Unregistered(Registered(table, version, messageType, serializer).value, version, messageType).value;
    if version in table {
      assert after[version] == table[version];
      assert after == table;
    }
  }

  /** The modules of the serializers are loaded in some order, and each registers itself for version 1. */
  function RegisteredAll<T>(types: seq<int>, serializer: int -> T): Result<Table<T>> {
    if types == [] then Ok(map[])
    else
      var table :- RegisteredAll(types[..|types| - 1], serializer);
      Registered(table, S.LATEST_VERSION, types[|types| - 1], serializer(types[|types| - 1]))
  }

  /** The lookup does not depend on the order of loading. */
  lemma {:induction false} LoadingOrderIsIrrelevant<T>(types: seq<int>, serializer: int -> T, version: int, messageType: int)
    requires RegisteredAll(types, serializer).Ok?
    ensures GetSerializer(RegisteredAll(types, serializer).value, version, messageType) ==
            if types == [] || version != S.LATEST_VERSION then Thrown(S.UNSUPPORTED_VERSION)
            else if messageType in types then Ok(serializer(messageType))
            else Thrown(S.UNSUPPORTED_TYPE)
    decreases |types|
  {
    if types != [] {
      var n := |types| - 1;
      LoadingOrderIsIrrelevant(types[..n], serializer, version, messageType);
      assert types == types[..n] + [types[n]];
    }
  }

  /** Loading fails exactly when a type comes twice. */
  lemma {:induction false} LoadingFailsOnRepeat<T>(types: seq<int>, serializer: int -> T)
    ensures RegisteredAll(types, serializer).Ok? <==> forall i, j :: 0 <= i < j < |types| ==> types[i] != types[j]
    decreases |types|
  {
    if types != [] {
      var n := |types| - 1;
      LoadingFailsOnRepeat(types[..n], serializer);
      if RegisteredAll(types[..n], serializer).Ok? {
        LoadingOrderIsIrrelevant(types[..n], serializer, S.LATEST_VERSION, types[n]);
        if types[n] in types[..n] {
          var i :| 0 <= i < n && types[..n][i] == types[n];
        }
      }
    }
  }

  /** Reading and writing a message fail at the lookup exactly as the table of the seven serializers does. */
  lemma MessagesUseTheTable<T>(types: seq<int>, serializer: int -> T, version: J.SafeInt, messageType: J.SafeInt,
                               rest: seq<J.Json>, m: S.Message)
    requires forall t :: t in types <==> 1 <= t <= 7
    requires RegisteredAll(types, serializer).Ok?
    ensures var table := RegisteredAll(types, serializer).value;
            && (GetSerializer(table, version, messageType).Thrown? ==>
                  S.FromArray(J.JArr([J.JNum(version), J.JNum(messageType)] + rest)) ==
                  Thrown(GetSerializer(table, version, messageType).reason))
            && (GetSerializer(table, m.version, S.MessageType(m)).Thrown? ==>
                  S.Serialize(m) == Thrown(GetSerializer(table, m.version, S.MessageType(m)).reason))
  {
    assert 1 in types;
    LoadingOrderIsIrrelevant(types, serializer, version, messageType);
    LoadingOrderIsIrrelevant(types, serializer, m.version, S.MessageType(m));
    var j := J.JArr([J.JNum(version), J.JNum(messageType)] + rest);
    assert j.items[0] == J.JNum(version) && j.items[1] == J.JNum(messageType);
  }
}
