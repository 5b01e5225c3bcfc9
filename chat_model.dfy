/**
 * chat-service/internal/app/models/chat.go: a chat between participants and
 * its messages.  Ids are UUID texts; the fresh UUID and the clock reading are
 * parameters; a time is an integer instant.
 */
module ChatModel {
  import opened Wrappers
  import opened ErrorChain
  import ServiceErrors
  import Uuids

  /** `models.Message`, copied by value into a chat. */
  datatype Message = Message(id: string, authorID: string, content: string, timestamp: int)

  /** The argument checks of `NewMessage`: the author is checked before the content. */
  function CheckNewMessage(authorID: string, content: string): (r: Option<Error>)
    ensures r.None? <==> authorID != "" && content != ""
    ensures authorID == "" ==> r == Some(ServiceErrors.NewInvalidInputError("author ID is required"))
    ensures authorID != "" && content == "" ==> r == Some(ServiceErrors.NewInvalidInputError("content is required"))
    ensures r.Some? ==> Is(r.value, ErrInvalidInput)
  {
    if authorID == "" then Some(ServiceErrors.NewInvalidInputError("author ID is required"))
    else if content == "" then Some(ServiceErrors.NewInvalidInputError("content is required"))
    else None
  }

  /** `NewMessage(authorID, content)` with `id` from `uuid.New` and `now` from `time.Now`. */
  function NewMessage(authorID: string, content: string, id: string, now: int): (r: Result<Message, Error>)
    ensures r.Err? <==> CheckNewMessage(authorID, content).Some?
    ensures r.Err? ==> r.error == CheckNewMessage(authorID, content).value
    ensures r.Ok? ==> r.value == Message(id, authorID, content, now)
  {
    var check := CheckNewMessage(authorID, content);
    if check.Some? then Err(check.value) else Ok(Message(id, authorID, content, now))
  }

  /** `MessageID.IsEmpty` / `ChatID.IsEmpty`. */
  predicate IsEmpty(id: string)
  {
    Uuids.IsNil(id)
  }

  class Chat {
    const id: string
    const participants: seq<string>
    var messages: seq<Message>
    const createdAt: int
    var updatedAt: int

    /** The chat `NewChat` allocates once its check passes. */
    constructor (id: string, participants: seq<string>, now: int)
      ensures this.id == id && this.participants == participants
      ensures messages == [] && createdAt == now && updatedAt == now
    {
      this.id := id;
      this.participants := participants;
      messages := [];
      createdAt := now;
      updatedAt := now;
    }

    /**
     * `AddMessage`: a nil message is InvalidInput and changes nothing;
     * otherwise the message is appended after the existing ones and the
     * update time refreshed.
     */
    method AddMessage(msg: Option<Message>, now: int) returns (err: Option<Error>)
      modifies this
      ensures msg.None? ==>
        err == Some(ServiceErrors.NewInvalidInputError("message is required"))
        && messages == old(messages) && updatedAt == old(updatedAt)
      ensures msg.Some? ==> err.None? && messages == old(messages) + [msg.value] && updatedAt == now
    {
      if msg.None? {
        return Some(ServiceErrors.NewInvalidInputError("message is required"));
      }
      messages := messages + [msg.value];
      updatedAt := now;
      return None;
    }
  }

  /** `NewChat`: only an empty participant list is refused; one participant is enough. */
  method NewChat(participants: seq<string>, id: string, now: int) returns (c: Chat?, err: Option<Error>)
    ensures participants == [] <==> c == null
    ensures participants == [] ==> err == Some(ServiceErrors.NewInvalidInputError("participants are required"))
    ensures participants != [] ==> err.None? && fresh(c)
    ensures c != null ==> c.id == id && c.participants == participants && c.messages == []
    ensures c != null ==> c.createdAt == now && c.updatedAt == now
  {
    if |participants| == 0 {
      return null, Some(ServiceErrors.NewInvalidInputError("participants are required"));
    }
    c := new Chat(id, participants, now);
    err := None;
  }

  /** A chat or message whose id came from `uuid.New` is never empty. */
  lemma NewIdsNotEmpty(id: string)
    requires Uuids.IsVersion4(id)
    ensures !IsEmpty(id)
  {
    Uuids.GeneratedNeverNil(id);
  }
}
