/**
 * users-service/internal/app/repositories/user/in_memory/users_repository.go:
 * users by id.  Locking and logging are not modelled.
 */
module UsersRepository {
  import opened Wrappers
  import opened ErrorChain
  import ServiceErrors
  import Uuids
  import opened UsersModel

  class UserRepository {
    var users: map<string, User>

    /** Every user is stored under its own id. */
    ghost predicate Valid()
      reads this
    {
      forall id :: id in users ==> users[id].id == id
    }

    /** The ids of the stored users with that nickname. */
    ghost function IdsWithNickname(nickname: string): set<string>
      reads this
    {
      set id | id in users && users[id].nickname == nickname
    }

    /** `NewUserRepository`: no users. */
    constructor ()
      ensures Valid() && users == map[]
    {
      users := map[];
    }

    /**
     * `Create`: a taken id is AlreadyExists (naming the nickname) with the
     * zero id and nothing changed; otherwise the user is stored and its id
     * returned.
     */
    method Create(user: User) returns (id: string, err: Option<Error>)
      requires Valid()
      modifies this
      ensures Valid()
      ensures user.id in old(users) ==>
        id == Uuids.NilText && users == old(users)
        && err == Some(ServiceErrors.NewAlreadyExistsError("user with nickname " + user.nickname + " already exists"))
      ensures user.id !in old(users) ==> id == user.id && err.None? && users == old(users)[user.id := user]
    {
      if user.id in users {
        return Uuids.NilText, Some(ServiceErrors.NewAlreadyExistsError("user with nickname " + user.nickname + " already exists"));
      }
      users := users[user.id := user];
      return user.id, None;
    }

    /** `Get`: the user with that id, or NotFound naming the id. */
    method Get(id: string) returns (user: Option<User>, err: Option<Error>)
      ensures id in users ==> user == Some(users[id]) && err.None?
      ensures id !in users ==> user.None? && err == Some(ServiceErrors.NewNotFoundError("user with id " + id + " not found"))
    {
      if id !in users {
        return None, Some(ServiceErrors.NewNotFoundError("user with id " + id + " not found"));
      }
      return Some(users[id]), None;
    }

    /**
     * `GetByNickname`: some stored user with that nickname (the first met in
     * map order), or NotFound naming the nickname when there is none.
     */
    method GetByNickname(nickname: string) returns (user: Option<User>, err: Option<Error>)
      requires Valid()
      ensures user.Some? <==> IdsWithNickname(nickname) != {}
      ensures user.Some? ==> err.None? && user.value.id in users && users[user.value.id] == user.value
                             && user.value.nickname == nickname
      ensures user.None? ==> err == Some(ServiceErrors.NewNotFoundError("user with nickname " + nickname + " not found"))
    {
      var remaining := users.Keys;
      while remaining != {}
        invariant remaining <= users.Keys
        invariant forall id :: id in users.Keys - remaining ==> users[id].nickname != nickname
        decreases remaining
      {
        var id :| id in remaining;
        if users[id].nickname == nickname {
          assert id in IdsWithNickname(nickname);
          return Some(users[id]), None;
        }
        remaining := remaining - {id};
      }
      return None, Some(ServiceErrors.NewNotFoundError("user with nickname " + nickname + " not found"));
    }

    /** `Update`: replaces the user with that id only; an unknown id is NotFound and changes nothing. */
    method Update(user: User) returns (err: Option<Error>)
      requires Valid()
      modifies this
      ensures Valid()
      ensures user.id !in old(users) ==>
        err == Some(ServiceErrors.NewNotFoundError("user with id " + user.id + " not found")) && users == old(users)
      ensures user.id in old(users) ==> err.None? && users == old(users)[user.id := user]
    {
      if user.id !in users {
        return Some(ServiceErrors.NewNotFoundError("user with id " + user.id + " not found"));
      }
      users := users[user.id := user];
      return None;
    }
  }
}
