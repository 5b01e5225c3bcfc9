/**
 * friends-service/internal/app/ports/usecases.go: the friendship record the
 * use cases hand to the gRPC adapters, built by a constructor that checks its
 * fields in order.  A time is an integer instant and 0 is Go's zero time.
 */
module FriendshipDtos {
  import opened Wrappers
  import opened ErrorChain
  import FriendsErrors

  datatype FriendshipDto = FriendshipDto(
    id: string,
    requestorID: string,
    recipientID: string,
    friendsNickName: string,
    friendsAvatarURL: string,
    status: string,
    createdAt: int,
    updatedAt: int)

  /** The message of the first failing field check, in the constructor's order. */
  function FirstMissingField(id: string, requestorID: string, recipientID: string, friendsNickName: string,
                             status: string, createdAt: int, updatedAt: int): Option<string>
  {
    if id == "" then Some("id cannot be empty")
    else if requestorID == "" then Some("requestorID cannot be empty")
    else if recipientID == "" then Some("recipientID cannot be empty")
    else if friendsNickName == "" then Some("friendsNickName cannot be empty")
    else if status == "" then Some("status cannot be empty")
    else if createdAt == 0 then Some("createdAt cannot be zero")
    else if updatedAt == 0 then Some("updatedAt cannot be zero")
    else None
  }

  /**
   * `NewFriendshipDto`: InvalidInput naming the first empty or zero field;
   * otherwise a record holding exactly the arguments.  The avatar URL is not
   * checked.
   */
  function NewFriendshipDto(id: string, requestorID: string, recipientID: string, friendsNickName: string,
                            friendsAvatarURL: string, status: string, createdAt: int, updatedAt: int)
    : (r: Result<FriendshipDto, Error>)
    ensures r.Ok? <==>
      id != "" && requestorID != "" && recipientID != "" && friendsNickName != "" && status != ""
      && createdAt != 0 && updatedAt != 0
    ensures r.Ok? ==>
      r.value == FriendshipDto(id, requestorID, recipientID, friendsNickName, friendsAvatarURL, status, createdAt, updatedAt)
    ensures r.Err? ==> Is(r.error, ErrInvalidInput)
    ensures r.Err? ==> r.error == FriendsErrors.NewInvalidInputError(
      FirstMissingField(id, requestorID, recipientID, friendsNickName, status, createdAt, updatedAt).value)
  {
    var missing := FirstMissingField(id, requestorID, recipientID, friendsNickName, status, createdAt, updatedAt);
    if missing.Some? then Err(FriendsErrors.NewInvalidInputError(missing.value))
    else Ok(FriendshipDto(id, requestorID, recipientID, friendsNickName, friendsAvatarURL, status, createdAt, updatedAt))
  }

  /**
   * The check order: a field is reported only when every field checked
   * before it is present, so an empty id is reported whatever else is
   * missing, and a zero updatedAt only when all else is set.
   */
  lemma FieldOrder(id: string, requestorID: string, recipientID: string, friendsNickName: string,
                   status: string, createdAt: int, updatedAt: int)
    ensures id == "" ==>
      FirstMissingField(id, requestorID, recipientID, friendsNickName, status, createdAt, updatedAt) == Some("id cannot be empty")
    ensures FirstMissingField(id, requestorID, recipientID, friendsNickName, status, createdAt, updatedAt) == Some("requestorID cannot be empty")
      <==> id != "" && requestorID == ""
    ensures FirstMissingField(id, requestorID, recipientID, friendsNickName, status, createdAt, updatedAt) == Some("recipientID cannot be empty")
      <==> id != "" && requestorID != "" && recipientID == ""
    ensures FirstMissingField(id, requestorID, recipientID, friendsNickName, status, createdAt, updatedAt) == Some("friendsNickName cannot be empty")
      <==> id != "" && requestorID != "" && recipientID != "" && friendsNickName == ""
    ensures FirstMissingField(id, requestorID, recipientID, friendsNickName, status, createdAt, updatedAt) == Some("status cannot be empty")
      <==> id != "" && requestorID != "" && recipientID != "" && friendsNickName != "" && status == ""
    ensures FirstMissingField(id, requestorID, recipientID, friendsNickName, status, createdAt, updatedAt) == Some("createdAt cannot be zero")
      <==> id != "" && requestorID != "" && recipientID != "" && friendsNickName != "" && status != "" && createdAt == 0
    ensures FirstMissingField(id, requestorID, recipientID, friendsNickName, status, createdAt, updatedAt) == Some("updatedAt cannot be zero")
      <==> id != "" && requestorID != "" && recipientID != "" && friendsNickName != "" && status != ""
           && createdAt != 0 && updatedAt == 0
  {
  }
}
