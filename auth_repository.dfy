/**
 * auth-service/internal/app/repositories/auth/in_memory/auth_repository.go:
 * users by id.  The operations are modelled sequentially; the one place where
 * the mutex decides the outcome, `Create` calling `FindUserByEmail` with the
 * lock held, is modelled separately below as a sequence of lock steps.
 */
module AuthRepository {
  import opened Wrappers
  import opened ErrorChain
  import opened AuthModels

  class AuthRepository {
    var storage: map<string, User>

    /** Every user is stored under its own id. */
    ghost predicate Valid()
      reads this
    {
      forall id :: id in storage ==> storage[id].id == id
    }

    /** The ids of the stored users whose username is `username`. */
    ghost function IdsWithUsername(username: string): set<string>
      reads this
    {
      set id | id in storage && storage[id].username == username
    }

    /** `NewAuthRepository`: no users. */
    constructor ()
      ensures Valid() && storage == map[]
    {
      storage := map[];
    }

    /**
     * `FindUserByEmail`: despite its name it compares usernames; it returns
     * some stored user with that username (the first met in map order), or an
     * error naming the username when there is none.
     */
    method FindUserByEmail(username: string) returns (user: Option<User>, err: Option<Error>)
      requires Valid()
      ensures user.Some? <==> IdsWithUsername(username) != {}
      ensures user.Some? ==> err.None? && user.value.id in storage && storage[user.value.id] == user.value
                             && user.value.username == username
      ensures user.None? ==> err == Some(Plain("user with this username: " + username + " not found"))
    {
      user := None;
      var remaining := storage.Keys;
      while remaining != {}
        invariant remaining <= storage.Keys
        invariant forall id :: id in storage.Keys - remaining ==> storage[id].username != username
        invariant user.Some? ==> user.value.id in storage && storage[user.value.id] == user.value
                                 && user.value.username == username
        decreases remaining
      {
        var id :| id in remaining;
        if storage[id].username == username {
          user := Some(storage[id]);
          break;
        }
        remaining := remaining - {id};
      }
      if user.None? {
        assert forall id :: id in storage ==> storage[id].username != username;
        return None, Some(Plain("user with this username: " + username + " not found"));
      }
      assert user.value.id in IdsWithUsername(username);
      err := None;
    }

    /**
     * `Create` with the lookup run under the lock it already holds (the
     * evidently intended behaviour): a stored user whose username equals the
     * new user's email refuses it, changing nothing; otherwise the user is
     * stored under its id, replacing any user with that id.
     */
    method Create(user: User) returns (err: Option<Error>)
      requires Valid()
      modifies this
      ensures Valid()
      ensures old(IdsWithUsername(user.email)) != {} ==>
        err == Some(Plain("user with this username already exists")) && storage == old(storage)
      ensures old(IdsWithUsername(user.email)) == {} ==> err.None? && storage == old(storage)[user.id := user]
    {
      var found, _ := FindUserByEmail(user.email);
      if found.Some? {
        return Some(Plain("user with this username already exists"));
      }
      storage := storage[user.id := user];
      return None;
    }

    /** `FindUserByID`. */
    method FindUserByID(id: string) returns (user: Option<User>, err: Option<Error>)
      ensures id in storage ==> user == Some(storage[id]) && err.None?
      ensures id !in storage ==> user.None? && err == Some(Plain("user not found"))
    {
      if id !in storage {
        return None, Some(Plain("user not found"));
      }
      return Some(storage[id]), None;
    }

    /** `Update`: replaces the user with that id only; an unknown id is an error that changes nothing. */
    method Update(user: User) returns (err: Option<Error>)
      requires Valid()
      modifies this
      ensures Valid()
      ensures user.id !in old(storage) ==> err == Some(Plain("user not found")) && storage == old(storage)
      ensures user.id in old(storage) ==> err.None? && storage == old(storage)[user.id := user]
    {
      if user.id !in storage {
        return Some(Plain("user not found"));
      }
      storage := storage[user.id := user];
      return None;
    }
  }

  // ---------------------------------------------------------------- locking

  /** One call on the repository's `sync.Mutex`; deferred unlocks run at return. */
  datatype LockStep = Acquire | Release

  /** Running the steps from a lock state: a `Lock` on a held mutex never returns. */
  datatype LockRun = Blocked | Finished(held: bool)

  function RunLock(steps: seq<LockStep>, held: bool): LockRun
  {
    if steps == [] then Finished(held)
    else if steps[0] == Acquire && held then Blocked
    else RunLock(steps[1..], steps[0] == Acquire)
  }

  /** The lock steps of every method but `Create`: lock, work, deferred unlock. */
  const SingleLock: seq<LockStep> := [Acquire, Release]

  /** `Create` as written: lock, call `FindUserByEmail` (which locks and unlocks), deferred unlock. */
  const CreateLockStepsAsWritten: seq<LockStep> := [Acquire] + SingleLock + [Release]

  /** `Create` as intended: one lock held around the lookup and the insert. */
  const CreateLockSteps: seq<LockStep> := SingleLock

  /** Acquiring a mutex again before releasing it blocks, whatever follows. */
  lemma {:induction false} ReacquireBlocks(pre: seq<LockStep>, post: seq<LockStep>)
    requires RunLock(pre, false) == Finished(true)
    ensures RunLock(pre + [Acquire] + post, false) == Blocked
  {
    RunPrefix(pre, [Acquire] + post, false);
    assert pre + [Acquire] + post == pre + ([Acquire] + post);
  }

  lemma {:induction false} RunPrefix(pre: seq<LockStep>, post: seq<LockStep>, held: bool)
    ensures RunLock(pre, held).Finished? ==> RunLock(pre + post, held) == RunLock(post, RunLock(pre, held).held)
    ensures RunLock(pre, held).Blocked? ==> RunLock(pre + post, held).Blocked?
    decreases |pre|
  {
    if pre == [] {
      assert pre + post == post;
    } else if !(pre[0] == Acquire && held) {
      assert (pre + post)[1..] == pre[1..] + post;
      RunPrefix(pre[1..], post, pre[0] == Acquire);
    }
  }

  /**
   * `Create` as written never returns, even on an empty repository: the
   * nested `FindUserByEmail` blocks on the mutex `Create` holds.  The
   * intended single-lock `Create` returns with the mutex free.
   */
  lemma CreateDeadlocks()
    ensures RunLock(CreateLockStepsAsWritten, false) == Blocked
    ensures RunLock(CreateLockSteps, false) == Finished(false)
  {
    ReacquireBlocks([Acquire], [Release, Release]);
    assert [Acquire] + [Acquire] + [Release, Release] == CreateLockStepsAsWritten;
  }
}
