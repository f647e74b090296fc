/** The in-memory observation store (user-states/mock-user-states-service.ts): a JavaScript
    `Map`, which iterates in first-insertion order. */
module MockUserStates {
  import opened Wrappers
  import opened UserStates

  /** `[userId, serviceName, deviceId].join(':')`. */
  function UserStateKey(s: UserState): string {
    s.userId + ":" + s.source.serviceName + ":" + s.source.deviceId
  }

  /** The states of `xs` that belong to `userId`, in order. */
  function OfUser(xs: seq<UserState>, userId: string): (r: seq<UserState>)
    ensures |r| <= |xs|
  {
    if xs == [] then []
    else (if xs[0].userId == userId then [xs[0]] else []) + OfUser(xs[1..], userId)
  }

  /** `OfUser` keeps exactly the user's states. */
  lemma {:induction false} OfUserMembers(xs: seq<UserState>, userId: string)
    ensures forall s :: s in OfUser(xs, userId) <==> s in xs && s.userId == userId
  {
    if xs != [] {
      OfUserMembers(xs[1..], userId);
      assert forall s :: s in xs <==> s == xs[0] || s in xs[1..];
    }
  }

  lemma {:induction false} OfUserSnoc(xs: seq<UserState>, s: UserState, userId: string)
    ensures OfUser(xs + [s], userId) == OfUser(xs, userId) + (if s.userId == userId then [s] else [])
  {
    if xs == [] {
      assert [s][1..] == [];
    } else {
      var ys := xs + [s];
      var head := if xs[0].userId == userId then [xs[0]] else [];
      var last := if s.userId == userId then [s] else [];
      assert ys[0] == xs[0] && ys[1..] == xs[1..] + [s];
      OfUserSnoc(xs[1..], s, userId);
      assert OfUser(ys, userId) == head + (OfUser(xs[1..], userId) + last);
      assert OfUser(xs, userId) == head + OfUser(xs[1..], userId);
    }
  }

  class MockUserStatesService {
    /** The map's keys in first-insertion order, and its entries. */
    var order: seq<string>
    var userStates: map<string, UserState>

    ghost predicate Valid()
      reads this
    {
      (forall k :: k in order <==> k in userStates) &&
      (forall i, j :: 0 <= i < j < |order| ==> order[i] != order[j])
    }

    /** The map's values in iteration order. */
    function Values(): (vs: seq<UserState>)
      reads this
      requires Valid()
      ensures |vs| == |order| && forall i :: 0 <= i < |order| ==> vs[i] == userStates[order[i]]
    {
      var o, m := order, userStates;
      assert forall i :: 0 <= i < |o| ==> o[i] in m;
      seq(|o|, i requires 0 <= i < |o| && o[i] in m => m[o[i]])
    }

    constructor()
      ensures Valid() && order == [] && userStates == map[]
    {
      order := [];
      userStates := map[];
    }

    /** `createUserState`: `set` replaces the entry of a known key in place and appends a new
        key at the end. */
    method CreateUserState(s: UserState) returns (key: string)
      requires Valid()
      modifies this
      ensures Valid()
      ensures key == UserStateKey(s)
      ensures userStates == old(userStates)[key := s]
      ensures order == if key in old(userStates) then old(order) else old(order) + [key]
      ensures ReadUserState(key) == Some(s)
      ensures key in old(userStates) ==> |userStates| == old(|userStates|)
    {
      key := UserStateKey(s);
      if key !in userStates {
        order := order + [key];
      }
      userStates := userStates[key := s];
    }

    /** `readUserState`: `undefined` for an unknown key. */
    function ReadUserState(key: string): (r: Option<UserState>)
      reads this
      ensures r.Some? <==> key in userStates
      ensures r.Some? ==> r.value == userStates[key]
    {
      if key in userStates then Some(userStates[key]) else None
    }

    /** `readUserStates(userId)`: the user's states in the map's iteration order. */
    method ReadUserStates(userId: string) returns (r: seq<UserState>)
      requires Valid()
      ensures r == OfUser(Values(), userId)
      ensures forall s :: s in r <==> s in userStates.Values && s.userId == userId
    {
      var vs := Values();
      r := [];
      var i := 0;
      while i < |order|
        invariant 0 <= i <= |order|
        invariant r == OfUser(vs[..i], userId)
      {
        var s := userStates[order[i]];
        OfUserSnoc(vs[..i], s, userId);
        assert vs[..i + 1] == vs[..i] + [s];
        if s.userId == userId {
          r := r + [s];
        }
        i := i + 1;
      }
      assert vs[..i] == vs;
      OfUserMembers(vs, userId);
      forall s ensures s in vs <==> s in userStates.Values {
        if s in userStates.Values {
          var k :| k in userStates && userStates[k] == s;
          var j :| 0 <= j < |order| && order[j] == k;
          assert vs[j] == s;
        }
      }
    }
  }
}
