/**
 * friends-service/internal/app/models/friend.go: a friendship request between
 * two users and its status.  The fresh UUID and the clock reading are
 * parameters; a time is an integer instant.
 */
module FriendshipModel {
  import opened Wrappers
  import opened ErrorChain
  import FriendsErrors

  const StatusRequested := "REQUESTED"
  const StatusAccepted := "ACCEPTED"
  const StatusRejected := "REJECTED"

  /** The statuses the model ever assigns. */
  predicate KnownStatus(s: string)
  {
    s == StatusRequested || s == StatusAccepted || s == StatusRejected
  }

  /** The argument checks of `NewFriendship`, in source order. */
  function CheckNewFriendship(userID: string, friendID: string): (r: Option<Error>)
    ensures r.None? <==> userID != "" && friendID != ""
    ensures userID == "" ==> r == Some(FriendsErrors.NewInvalidInputError("userID cannot be empty"))
    ensures userID != "" && friendID == "" ==>
      r == Some(FriendsErrors.NewInvalidInputError("friendID cannot be empty"))
    ensures r.Some? ==> Is(r.value, ErrInvalidInput)
  {
    if userID == "" then Some(FriendsErrors.NewInvalidInputError("userID cannot be empty"))
    else if friendID == "" then Some(FriendsErrors.NewInvalidInputError("friendID cannot be empty"))
    else None
  }

  class Friendship {
    const id: string
    const userID: string
    const friendID: string
    var status: string
    const createdAt: int
    var updatedAt: int

    /** Every friendship holds one of the three statuses. */
    ghost predicate Valid()
      reads this
    {
      KnownStatus(status)
    }

    /** The record `NewFriendship` allocates once its checks pass. */
    constructor (id: string, userID: string, friendID: string, now: int)
      ensures this.id == id && this.userID == userID && this.friendID == friendID
      ensures status == StatusRequested && createdAt == now && updatedAt == now
      ensures Valid()
    {
      this.id := id;
      this.userID := userID;
      this.friendID := friendID;
      status := StatusRequested;
      createdAt := now;
      updatedAt := now;
    }

    /** `Accept`: from any status to ACCEPTED; the identity fields are constants. */
    method Accept(now: int)
      modifies this
      ensures status == StatusAccepted && updatedAt == now
      ensures Valid() && IsAccepted()
    {
      status := StatusAccepted;
      updatedAt := now;
    }

    /** `Reject`: from any status to REJECTED. */
    method Reject(now: int)
      modifies this
      ensures status == StatusRejected && updatedAt == now
      ensures Valid() && IsRejected()
    {
      status := StatusRejected;
      updatedAt := now;
    }

    predicate IsAccepted()
      reads this
    {
      status == StatusAccepted
    }

    predicate IsRequested()
      reads this
    {
      status == StatusRequested
    }

    predicate IsRejected()
      reads this
    {
      status == StatusRejected
    }
  }

  /**
   * `NewFriendship(userID, friendID)`: an empty userID is reported before an
   * empty friendID; otherwise a fresh REQUESTED friendship created and
   * updated at `now`.
   */
  method NewFriendship(userID: string, friendID: string, id: string, now: int)
    returns (f: Friendship?, err: Option<Error>)
    ensures err == CheckNewFriendship(userID, friendID)
    ensures err.Some? <==> f == null
    ensures f != null ==> fresh(f) && f.Valid() && f.IsRequested()
    ensures f != null ==> f.id == id && f.userID == userID && f.friendID == friendID
    ensures f != null ==> f.createdAt == now && f.updatedAt == now
  {
    err := CheckNewFriendship(userID, friendID);
    if err.Some? {
      return null, err;
    }
    f := new Friendship(id, userID, friendID, now);
  }

  /** For a status the model assigns, exactly one of the three status predicates holds; for any other, none. */
  lemma StatusPredicatesExclusive(f: Friendship)
    ensures f.Valid() ==>
      (if f.IsAccepted() then 1 else 0) + (if f.IsRequested() then 1 else 0) + (if f.IsRejected() then 1 else 0) == 1
    ensures !f.Valid() ==> !f.IsAccepted() && !f.IsRequested() && !f.IsRejected()
  {
  }
}
