/** The DynamoDB-backed observation store (user-states/dynamodb-user-states-service.ts): one item
    per user and source, partitioned by user. The location is not part of the key. */
module DynamoDbUserStates {
  import opened Wrappers
  import opened Strings
  import opened UserStates
  import opened DynamoDb

  /** The key part of `UserStateItem.fromUserState(s)`. */
  function UserStateItemKey(s: UserState): (k: ItemKey)
    ensures k.primaryKey == "USR:" + s.userId
    ensures k.sortKey == "SVC:" + s.source.serviceName + "#DVC:" + s.source.deviceId
  {
    TwoTuples(SourceServiceName, s.source.serviceName, SourceDeviceId, s.source.deviceId);
    ItemKey(GenerateKey([(UserId, s.userId)]),
            GenerateKey([(SourceServiceName, s.source.serviceName), (SourceDeviceId, s.source.deviceId)]))
  }

  /** Item keys identify (user, service, device) and nothing else: observations of one source at
      two locations share an item, so one overwrites the other (for values without `#`). */
  lemma UserStateItemKeyIdentifiesSource(s1: UserState, s2: UserState)
    requires Free(s1.source.serviceName, '#') && Free(s1.source.deviceId, '#')
    requires Free(s2.source.serviceName, '#') && Free(s2.source.deviceId, '#')
    ensures UserStateItemKey(s1) == UserStateItemKey(s2) <==> s1.userId == s2.userId && s1.source == s2.source
  {
    var t1 := [(SourceServiceName, s1.source.serviceName), (SourceDeviceId, s1.source.deviceId)];
    var t2 := [(SourceServiceName, s2.source.serviceName), (SourceDeviceId, s2.source.deviceId)];
    if UserStateItemKey(s1) == UserStateItemKey(s2) {
      GenerateKeyInjective(t1, t2);
      assert t1[0] == t2[0] && t1[1] == t2[1];
      assert s1.userId == ("USR:" + s1.userId)[4..];
    }
  }

  class DynamoDbUserStatesService {
    var table: map<ItemKey, UserState>

    /** Every item sits under the key derived from its state. */
    ghost predicate Valid()
      reads this
    {
      forall k :: k in table ==> k == UserStateItemKey(table[k])
    }

    constructor(table0: map<ItemKey, UserState>)
      requires forall k :: k in table0 ==> k == UserStateItemKey(table0[k])
      ensures Valid() && table == table0
    {
      table := table0;
    }

    /** `createUserState`: a put of the state's item, then the encoded item key. `failure` is
        the error the `put` rejects with, if it does; it propagates and the table is unchanged. */
    method CreateUserState(s: UserState, failure: Option<string>) returns (r: Result<string>)
      requires Valid()
      modifies this
      ensures Valid()
      ensures failure.Some? ==> r == Err(failure.value) && unchanged(this)
      ensures failure.None? ==> r == Ok(Encode(UserStateItemKey(s))) && table == old(table)[UserStateItemKey(s) := s]
      ensures r.Ok? ==> ReadUserState(r.value) == Ok(Some(s))
    {
      if failure.Some? {
        return Err(failure.value);
      }
      var k := UserStateItemKey(s);
      table := table[k := s];
      DecodeEncode(k);
      r := Ok(Encode(k));
    }

    /** `readUserState`: a key that does not decode makes `JSON.parse` throw. */
    function ReadUserState(key: string): (r: Result<Option<UserState>>)
      reads this
      ensures r.Err? <==> Decode(key).None?
      ensures r.Ok? ==> (r.value.Some? <==> Decode(key).value in table)
      ensures r.Ok? && r.value.Some? ==> r.value.value == table[Decode(key).value]
    {
      GetItem(table, key)
    }

    /** `readUserStates(userId)`: the query on partition `USR:<userId>` and sort keys beginning
        with `SVC`. It takes no location, and returns exactly the user's stored states. */
    function ReadUserStates(userId: string): (r: set<UserState>)
      reads this
      requires Valid()
      ensures r == set k | k in table && table[k].userId == userId :: table[k]
    {
      set k | k in table && k.primaryKey == GenerateKey([(UserId, userId)]) && StartsWith(k.sortKey, "SVC") :: table[k]
    }

    /** At most one item per user and source, whatever the locations. */
    lemma OneItemPerSource(k1: ItemKey, k2: ItemKey)
      requires Valid() && k1 in table && k2 in table
      requires table[k1].userId == table[k2].userId && table[k1].source == table[k2].source
      ensures k1 == k2
    {
    }
  }
}
