/**
 * friends-service/internal/app/repositories/in_memory/friendship_memory.go:
 * friendships stored under the key "userID:friendID", looked up in either
 * direction.  Locking and logging are not modelled.
 */
module FriendshipRepository {
  import opened Wrappers
  import opened ErrorChain
  import FriendsErrors
  import opened FriendshipModel
  import opened Strings

  /** `fmt.Sprintf("%s:%s", a, b)`. */
  function Key(a: string, b: string): (k: string)
    ensures |k| == |a| + 1 + |b| && k[..|a|] == a && k[|a|] == ':' && k[|a| + 1..] == b
  {
    a + ":" + b
  }

  /** `ports.UserPair`. */
  datatype UserPair = UserPair(userID1: string, userID2: string)

  /** Whether the stored friendships make `a` and `b` friends: an accepted record under either key. */
  predicate AreFriends(fs: map<string, Friendship>, a: string, b: string)
    reads fs.Values
  {
    (Key(a, b) in fs && fs[Key(a, b)].IsAccepted()) || (Key(b, a) in fs && fs[Key(b, a)].IsAccepted())
  }

  /** The pairs (main, other), in the order of `others`, that are not friends. */
  function NonFriendPairs(fs: map<string, Friendship>, main: string, others: seq<string>): seq<UserPair>
    reads fs.Values
  {
    if others == [] then []
    else
      var last := others[|others| - 1];
      NonFriendPairs(fs, main, others[..|others| - 1]) + (if AreFriends(fs, main, last) then [] else [UserPair(main, last)])
  }

  /** The non-friend pairs are exactly (main, o) for the listed o that are not friends of main. */
  lemma {:induction false} NonFriendPairsMembers(fs: map<string, Friendship>, main: string, others: seq<string>)
    ensures forall p :: p in NonFriendPairs(fs, main, others) <==>
      p.userID1 == main && p.userID2 in others && !AreFriends(fs, main, p.userID2)
    ensures |NonFriendPairs(fs, main, others)| <= |others|
    ensures NonFriendPairs(fs, main, others) == [] <==> forall o :: o in others ==> AreFriends(fs, main, o)
  {
    if others != [] {
      var init, last := others[..|others| - 1], others[|others| - 1];
      var extra := if AreFriends(fs, main, last) then [] else [UserPair(main, last)];
      NonFriendPairsMembers(fs, main, init);
      assert NonFriendPairs(fs, main, others) == NonFriendPairs(fs, main, init) + extra;
      assert others == init + [last];
      assert forall o :: o in others <==> o in init || o == last;
      forall p
        ensures p in NonFriendPairs(fs, main, others) <==>
          p.userID1 == main && p.userID2 in others && !AreFriends(fs, main, p.userID2)
      {
        assert p in NonFriendPairs(fs, main, others) <==> p in NonFriendPairs(fs, main, init) || p in extra;
      }
    }
  }

  class FriendshipRepository {
    var friendships: map<string, Friendship>

    /** `NewFriendshipRepository`: an empty store. */
    constructor ()
      ensures friendships == map[]
    {
      friendships := map[];
    }

    /**
     * `Create`: fails with AlreadyExists, changing nothing, when the forward
     * key is taken; a record stored in the reverse direction is not noticed.
     */
    method Create(f: Friendship) returns (err: Option<Error>)
      modifies this
      ensures Key(f.userID, f.friendID) in old(friendships) ==>
        err == Some(FriendsErrors.NewAlreadyExistsError(Sprintf("friendship already exists", [Str(f.userID), Str(f.friendID)]))) && friendships == old(friendships)
      ensures Key(f.userID, f.friendID) !in old(friendships) ==>
        err.None? && friendships == old(friendships)[Key(f.userID, f.friendID) := f]
    {
      var key := Key(f.userID, f.friendID);
      if key in friendships {
        return Some(FriendsErrors.NewAlreadyExistsError(Sprintf("friendship already exists", [Str(f.userID), Str(f.friendID)])));
      }
      friendships := friendships[key := f];
      return None;
    }

    /**
     * `GetByUserIDs`: equal ids are invalid input; otherwise the record under
     * the forward key, else under the reverse key, else neither a record nor
     * an error.
     */
    method GetByUserIDs(userID1: string, userID2: string) returns (f: Friendship?, err: Option<Error>)
      ensures userID1 == userID2 ==>
        f == null && err == Some(FriendsErrors.NewInvalidInputError(
          Sprintf("user IDs must be different", [Str("userID1"), Str(userID1), Str("userID2"), Str(userID2)])))
      ensures userID1 != userID2 ==> err.None?
      ensures userID1 != userID2 && Key(userID1, userID2) in friendships ==> f == friendships[Key(userID1, userID2)]
      ensures userID1 != userID2 && Key(userID1, userID2) !in friendships && Key(userID2, userID1) in friendships ==>
        f == friendships[Key(userID2, userID1)]
      ensures userID1 != userID2 && Key(userID1, userID2) !in friendships && Key(userID2, userID1) !in friendships ==>
        f == null
    {
      if userID1 == userID2 {
        return null, Some(FriendsErrors.NewInvalidInputError(
          Sprintf("user IDs must be different", [Str("userID1"), Str(userID1), Str("userID2"), Str(userID2)])));
      }
      var key1 := Key(userID1, userID2);
      var key2 := Key(userID2, userID1);
      if key1 in friendships {
        return friendships[key1], None;
      }
      if key2 in friendships {
        return friendships[key2], None;
      }
      return null, None;
    }

    /** The keys whose record has the user on either side. */
    ghost function KeysOf(userID: string): set<string>
      reads this
    {
      set k | k in friendships && (friendships[k].userID == userID || friendships[k].friendID == userID)
    }

    /**
     * `GetAllFriendships`: every stored record with the user on either side,
     * one per key, in map order (`keys` names the key of each result).
     */
    method GetAllFriendships(userID: string) returns (result: seq<Friendship>, ghost keys: seq<string>)
      ensures |keys| == |result|
      ensures forall a, b :: 0 <= a < b < |keys| ==> keys[a] != keys[b]
      ensures forall k :: 0 <= k < |keys| ==> keys[k] in friendships && result[k] == friendships[keys[k]]
      ensures forall k :: k in KeysOf(userID) <==> k in keys
      ensures forall f :: f in result ==> f.userID == userID || f.friendID == userID
    {
      result, keys := [], [];
      var remaining := friendships.Keys;
      while remaining != {}
        invariant remaining <= friendships.Keys
        invariant |keys| == |result|
        invariant forall a, b :: 0 <= a < b < |keys| ==> keys[a] != keys[b]
        invariant forall k :: 0 <= k < |keys| ==> keys[k] in friendships.Keys - remaining && result[k] == friendships[keys[k]]
        invariant forall k :: k in KeysOf(userID) && k !in remaining <==> k in keys
        invariant forall f :: f in result ==> f.userID == userID || f.friendID == userID
        decreases remaining
      {
        var key :| key in remaining;
        var f := friendships[key];
        if f.userID == userID || f.friendID == userID {
          result, keys := result + [f], keys + [key];
        }
        remaining := remaining - {key};
      }
    }

    /** The key `Update` and `Delete` act on: the forward key, else the reverse key, else none. */
    function Resolve(f: Friendship): (k: Option<string>)
      reads this
      ensures k.Some? ==> k.value in friendships
      ensures k.None? <==> Key(f.userID, f.friendID) !in friendships && Key(f.friendID, f.userID) !in friendships
      ensures Key(f.userID, f.friendID) in friendships ==> k == Some(Key(f.userID, f.friendID))
    {
      if Key(f.userID, f.friendID) in friendships then Some(Key(f.userID, f.friendID))
      else if Key(f.friendID, f.userID) in friendships then Some(Key(f.friendID, f.userID))
      else None
    }

    /** `Update`: overwrites the resolved key only; NotFound changes nothing. */
    method Update(f: Friendship) returns (err: Option<Error>)
      modifies this
      ensures old(Resolve(f)).None? ==>
        err == Some(FriendsErrors.NewNotFoundError(Sprintf("friendship not found", [Str(f.userID), Str(f.friendID)]))) && friendships == old(friendships)
      ensures old(Resolve(f)).Some? ==>
        err.None? && friendships == old(friendships)[old(Resolve(f)).value := f]
    {
      var key := Key(f.userID, f.friendID);
      if key !in friendships {
        var reverseKey := Key(f.friendID, f.userID);
        if reverseKey !in friendships {
          return Some(FriendsErrors.NewNotFoundError(Sprintf("friendship not found", [Str(f.userID), Str(f.friendID)])));
        }
        key := reverseKey;
      }
      friendships := friendships[key := f];
      return None;
    }

    /** `Delete`: removes the resolved key only; NotFound changes nothing. */
    method Delete(f: Friendship) returns (err: Option<Error>)
      modifies this
      ensures old(Resolve(f)).None? ==>
        err == Some(FriendsErrors.NewNotFoundError(Sprintf("friendship not found", [Str(f.userID), Str(f.friendID)]))) && friendships == old(friendships)
      ensures old(Resolve(f)).Some? ==>
        err.None? && friendships == old(friendships) - {old(Resolve(f)).value}
    {
      var key := Key(f.userID, f.friendID);
      if key !in friendships {
        var reverseKey := Key(f.friendID, f.userID);
        if reverseKey !in friendships {
          return Some(FriendsErrors.NewNotFoundError(Sprintf("friendship not found", [Str(f.userID), Str(f.friendID)])));
        }
        key := reverseKey;
      }
      friendships := friendships - {key};
      return None;
    }

    /**
     * `CheckFriendships`: with fewer than two ids, no pairs, "all friends" and
     * InvalidInput; otherwise the first id against each later one, listing the
     * pairs that are not friends, and "all friends" exactly when none is listed.
     */
    method CheckFriendships(userIDs: seq<string>) returns (pairs: seq<UserPair>, allAreFriends: bool, err: Option<Error>)
      ensures |userIDs| < 2 ==>
        pairs == [] && allAreFriends
        && err == Some(FriendsErrors.NewInvalidInputError(
          Sprintf("user IDs must contain at least 2 elements", [Str("userIDs"), Strs(userIDs)])))
      ensures |userIDs| >= 2 ==>
        err.None? && pairs == NonFriendPairs(friendships, userIDs[0], userIDs[1..])
        && (allAreFriends <==> pairs == [])
    {
      if |userIDs| < 2 {
        return [], true, Some(FriendsErrors.NewInvalidInputError(
          Sprintf("user IDs must contain at least 2 elements", [Str("userIDs"), Strs(userIDs)])));
      }
      var main := userIDs[0];
      var others := userIDs[1..];
      pairs := [];
      var i := 0;
      while i < |others|
        invariant 0 <= i <= |others|
        invariant pairs == NonFriendPairs(friendships, main, others[..i])
      {
        var other := others[i];
        var key1 := Key(main, other);
        var key2 := Key(other, main);
        var isFriend := (key1 in friendships && friendships[key1].IsAccepted())
                        || (key2 in friendships && friendships[key2].IsAccepted());
        assert others[..i + 1][..i] == others[..i];
        if !isFriend {
          pairs := pairs + [UserPair(main, other)];
        }
        i := i + 1;
      }
      assert others[..i] == others;
      allAreFriends := |pairs| == 0;
      err := None;
    }
  }


  // ---------------------------------------------------------------- the logger field

  /** A `*slog.Logger` value. */
  datatype LoggerRef = NilLogger | Logger

  /**
   * The logger field `NewFriendshipRepository` leaves behind, as written: the
   * argument, or the text-handler logger put in place of nil, is assigned to
   * the parameter only, so the field keeps its zero value.
   */
  function StoredLoggerAsWritten(arg: LoggerRef): (field: LoggerRef)
    ensures field == NilLogger
  {
    NilLogger
  }

  /** The logger field the constructor evidently means to set: the argument, or a fresh logger for nil. */
  function StoredLogger(arg: LoggerRef): (field: LoggerRef)
    ensures field != NilLogger
    ensures arg != NilLogger ==> field == arg
  {
    if arg == NilLogger then Logger else arg
  }

  /** One call of the repository, with the arguments its early returns look at. */
  datatype RepositoryCall =
    | CreateCall
    | GetByUserIDsCall(userID1: string, userID2: string)
    | GetAllFriendshipsCall
    | UpdateCall
    | DeleteCall
    | CheckFriendshipsCall(userIDs: seq<string>)

  /** Whether the call reaches `r.logger.Info`: every call but the two early InvalidInput returns does. */
  predicate ReachesLogger(c: RepositoryCall)
  {
    match c
    case GetByUserIDsCall(a, b) => a != b
    case CheckFriendshipsCall(ids) => |ids| >= 2
    case _ => true
  }

  /** A method call on a nil `*slog.Logger` dereferences it and panics. */
  predicate Panics(field: LoggerRef, c: RepositoryCall)
  {
    field == NilLogger && ReachesLogger(c)
  }

  /**
   * As written, whatever logger the repository is built with, a call panics
   * exactly when it gets past its argument checks: every Create, Update,
   * Delete and GetAllFriendships, and every GetByUserIDs on two different IDs.
   */
  lemma NilLoggerPanics(arg: LoggerRef, c: RepositoryCall)
    ensures Panics(StoredLoggerAsWritten(arg), c) <==> ReachesLogger(c)
    ensures Panics(StoredLoggerAsWritten(arg), CreateCall)
  {
  }

  /** With the logger stored, no call panics; the repository methods above model that behaviour. */
  lemma StoredLoggerNeverPanics(arg: LoggerRef, c: RepositoryCall)
    ensures !Panics(StoredLogger(arg), c)
  {
  }
}
