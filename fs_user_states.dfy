/** The filesystem-backed observation store (user-states/fs-user-states-service.ts): one JSON
    file per user, location, service and device under `users/<userId>/`. */
module FsUserStates {
  import opened Wrappers
  import opened Strings
  import opened UserStates
  import opened FileSystem
  import Locations

  function UserDir(userId: string): string {
    "users/" + userId + "/"
  }

  /** `<locationId>_<serviceName>_<deviceId>.json`. */
  function FileName(s: UserState): string {
    s.locationId + "_" + s.source.serviceName + "_" + s.source.deviceId + ".json"
  }

  /** The key `createUserState` returns: the file's path relative to the base directory. */
  function UserStateKey(s: UserState): (key: string)
    ensures key == "users/" + s.userId + "/" + s.locationId + "_" + s.source.serviceName + "_" + s.source.deviceId + ".json"
    ensures StartsWith(key, UserDir(s.userId)) && key[|UserDir(s.userId)|..] == FileName(s)
  {
    var key := UserDir(s.userId) + FileName(s);
    assert key[..|UserDir(s.userId)|] == UserDir(s.userId);
    key
  }

  /** `!locationId`: both a missing and an empty `locationId` switch the filter off. */
  predicate NoLocationFilter(locationId: Option<string>) {
    locationId.None? || locationId.value == ""
  }

  /** The filter `readUserStates` applies to each file name: a plain prefix test against the
      requested location and against the global location. */
  predicate Selects(locationId: Option<string>, fileName: string) {
    NoLocationFilter(locationId) || StartsWith(fileName, locationId.value) || StartsWith(fileName, Locations.LocationIdGlobal)
  }

  /** A state is always selected by a query for its own location, and a global state by a
      query for any location. */
  lemma SelectsOwnAndGlobal(s: UserState, locationId: Option<string>)
    ensures Selects(Some(s.locationId), FileName(s))
    ensures s.locationId == Locations.LocationIdGlobal ==> Selects(locationId, FileName(s))
  {
    assert FileName(s)[..|s.locationId|] == s.locationId;
  }

  /** Because the test is on prefixes, a query for `off` also selects the files of `office`. */
  lemma PrefixSelectsLongerLocation(s: UserState)
    requires s.locationId == "office"
    ensures Selects(Some("off"), FileName(s)) && s.locationId != "off"
  {
    assert FileName(s)[..3] == "off";
  }

  class FsUserStatesService {
    /** The files under the base directory. */
    var files: map<string, Entry<UserState>>

    constructor(files0: map<string, Entry<UserState>>)
      ensures files == files0
    {
      files := files0;
    }

    /** `createUserState`: writes the state's file, replacing whatever was there. `failure` is
        the error `mkdir` or `writeFile` rejects with, if one does; it propagates and no file
        changes. */
    method CreateUserState(s: UserState, failure: Option<string>) returns (r: Result<string>)
      modifies this
      ensures failure.Some? ==> r == Err(failure.value) && unchanged(this)
      ensures failure.None? ==> r == Ok(UserStateKey(s)) && files == old(files)[UserStateKey(s) := Stored(s)]
      ensures r.Ok? ==> ReadUserState(r.value) == Ok(Some(s))
      ensures r.Ok? ==> forall other :: other != r.value ==> ReadUserState(other) == old(ReadUserState(other))
    {
      if failure.Some? {
        return Err(failure.value);
      }
      var key := UserStateKey(s);
      files := files[key := Stored(s)];
      r := Ok(key);
    }

    /** `readUserState`. */
    function ReadUserState(key: string): Result<Option<UserState>>
      reads this
    {
      ReadFile(files, key)
    }

    /** The names in the user's directory that survive the location filter. */
    function SelectedNames(userId: string, locationId: Option<string>): set<string>
      reads this
    {
      set n | n in Listing(files, UserDir(userId)) && Selects(locationId, n)
    }

    /** The entries of the selected files, by name. */
    function Selected(userId: string, locationId: Option<string>): map<string, Entry<UserState>>
      reads this
    {
      map n | n in SelectedNames(userId, locationId) :: files[UserDir(userId) + n]
    }

    /** Without a location (or with an empty one) every file in the user's directory is read;
        with one, only the names that start with it or with the global location. */
    lemma SelectionByLocation(userId: string, locationId: Option<string>)
      ensures NoLocationFilter(locationId) ==> SelectedNames(userId, locationId) == Listing(files, UserDir(userId))
      ensures !NoLocationFilter(locationId) ==>
                forall n :: n in SelectedNames(userId, locationId) <==>
                  n in Listing(files, UserDir(userId)) &&
                  (StartsWith(n, locationId.value) || StartsWith(n, Locations.LocationIdGlobal))
      ensures forall n :: n in Selected(userId, locationId) ==> files[UserDir(userId) + n] == Selected(userId, locationId)[n]
    {
    }

    /** Whether `readUserStates(userId, locationId)` resolves: the directory exists and every
        selected file reads. */
    predicate ReadsAll(userId: string, locationId: Option<string>)
      reads this
    {
      Listing(files, UserDir(userId)) != {} &&
      forall n :: n in Selected(userId, locationId) ==> Selected(userId, locationId)[n].Stored?
    }

    /** `readUserStates(userId, locationId?)`. `readdir` of a directory that does not exist
        throws; so does any read that fails with an error other than `ENOENT`. Otherwise the
        result holds the state of every selected file once, in an unspecified (directory) order:
        `order` is that order of the file names. */
    method ReadUserStates(userId: string, locationId: Option<string>) returns (r: Result<seq<UserState>>, ghost order: seq<string>)
      ensures r.Ok? <==> ReadsAll(userId, locationId)
      ensures r.Err? <==> (Listing(files, UserDir(userId)) == {} ||
        exists n :: n in Selected(userId, locationId) && Selected(userId, locationId)[n].Unreadable?)
      ensures r.Ok? ==> ListsEachOnce(Selected(userId, locationId), order, r.value)
      ensures r.Ok? ==> forall s :: s in r.value <==> Stored(s) in Selected(userId, locationId).Values
    {
      order := [];
      if Listing(files, UserDir(userId)) == {} {
        return Err("ENOENT"), order;
      }
      var entries := Selected(userId, locationId);
      r, order := ReadAll(entries);
      if r.Ok? {
        ListsEachOnceValues(entries, order, r.value);
      }
    }
  }

  /** `order` names every entry exactly once, and `states` holds each named entry's state in
      that order: one state per file, none twice, none left out. */
  ghost predicate ListsEachOnce(entries: map<string, Entry<UserState>>, order: seq<string>, states: seq<UserState>) {
    && |order| == |states|
    && (forall i, j :: 0 <= i < j < |order| ==> order[i] != order[j])
    && (forall n :: n in entries <==> n in order)
    && (forall i :: 0 <= i < |order| ==> order[i] in entries && entries[order[i]] == Stored(states[i]))
  }

  /** Such a listing has one state per entry, and holds exactly the stored states. */
  lemma ListsEachOnceValues(entries: map<string, Entry<UserState>>, order: seq<string>, states: seq<UserState>)
    requires ListsEachOnce(entries, order, states)
    ensures |states| == |entries|
    ensures forall s :: s in states <==> Stored(s) in entries.Values
  {
    DistinctLength(order, entries.Keys);
    forall s | Stored(s) in entries.Values ensures s in states {
      var n :| n in entries && entries[n] == Stored(s);
      var i :| 0 <= i < |order| && order[i] == n;
      assert states[i] == s;
    }
  }

  /** A duplicate-free sequence of exactly the elements of `keys` is as long as `keys` is big. */
  lemma {:induction false} DistinctLength(order: seq<string>, keys: set<string>)
    requires forall i, j :: 0 <= i < j < |order| ==> order[i] != order[j]
    requires forall n :: n in keys <==> n in order
    ensures |order| == |keys|
    decreases |order|
  {
    if order != [] {
      var last := order[|order| - 1];
      var prefix := order[..|order| - 1];
      assert forall n :: n in keys - {last} <==> n in prefix by {
        forall n ensures n in keys - {last} <==> n in prefix {
          if n in prefix {
            var i :| 0 <= i < |prefix| && prefix[i] == n;
            assert order[i] == n;
          }
          if n in order && n != last {
            var i :| 0 <= i < |order| && order[i] == n;
            assert i < |order| - 1 && prefix[i] == n;
          }
        }
      }
      DistinctLength(prefix, keys - {last});
    }
  }

  /** `Promise.all` over the reads of the selected files: the first failure (in whatever order
      the reads settle) rejects the whole; otherwise every file's state, once each, in the order
      `order` of the file names. */
  method ReadAll(entries: map<string, Entry<UserState>>) returns (r: Result<seq<UserState>>, ghost order: seq<string>)
    ensures r.Err? <==> exists n :: n in entries && entries[n].Unreadable?
    ensures r.Err? ==> exists n :: n in entries && entries[n] == Unreadable(r.error)
    ensures r.Ok? ==> ListsEachOnce(entries, order, r.value)
  {
    var remaining := entries.Keys;
    var states: seq<UserState> := [];
    order := [];
    while remaining != {}
      invariant remaining <= entries.Keys
      invariant |order| == |states|
      invariant forall i, j :: 0 <= i < j < |order| ==> order[i] != order[j]
      invariant forall n :: n in order <==> n in entries && n !in remaining
      invariant forall i :: 0 <= i < |order| ==> order[i] in entries && entries[order[i]] == Stored(states[i])
      decreases |remaining|
    {
      var n :| n in remaining;
      if entries[n].Unreadable? {
        return Err(entries[n].code), order;
      }
      states := states + [entries[n].value];
      order := order + [n];
      remaining := remaining - {n};
    }
    return Ok(states), order;
  }

  /** A state just written is always among those read back for its user and location (when
      no part of its file name holds a path separator). */
  lemma ReadBackIncludesWritten(files: map<string, Entry<UserState>>, s: UserState)
    requires Free(FileName(s), '/')
    ensures UserStateKey(s) in files[UserStateKey(s) := Stored(s)]
    ensures FileName(s) in Listing(files[UserStateKey(s) := Stored(s)], UserDir(s.userId))
    ensures Selects(Some(s.locationId), FileName(s))
  {
    SelectsOwnAndGlobal(s, None);
    assert UserDir(s.userId) + FileName(s) == UserStateKey(s);
  }
}
