/**
 * chat-service/internal/app/repositories/in_memory/chat_repository.go: chats
 * by id and, beside them, each chat's message list.  Locking and logging are
 * not modelled; the fresh UUIDs and clock readings are parameters.
 */
module ChatRepository {
  import opened Wrappers
  import opened ErrorChain
  import ServiceErrors
  import opened ChatModel

  class ChatRepository {
    var storage: map<string, Chat>
    var messages: map<string, seq<Message>>

    /**
     * Every chat is stored under its own id, has a message list beside it,
     * and that list is the chat's own list.
     */
    ghost predicate Valid()
      reads this, storage.Values
    {
      && storage.Keys == messages.Keys
      && forall id :: id in storage ==> storage[id].id == id && messages[id] == storage[id].messages
    }

    /** `NewChatRepository`: both maps empty. */
    constructor ()
      ensures Valid() && storage == map[] && messages == map[]
    {
      storage := map[];
      messages := map[];
    }

    /**
     * `Create`: a refused `NewChat` changes nothing; otherwise the new chat
     * is stored under its id with an empty message list.
     */
    method Create(participants: seq<string>, id: string, now: int) returns (chat: Chat?, err: Option<Error>)
      requires Valid()
      modifies this
      ensures Valid()
      ensures participants == [] ==>
        chat == null && err == Some(ServiceErrors.NewInvalidInputError("participants are required"))
        && storage == old(storage) && messages == old(messages)
      ensures participants != [] ==>
        err.None? && chat != null && fresh(chat)
        && chat.id == id && chat.participants == participants && chat.messages == []
        && chat.createdAt == now && chat.updatedAt == now
        && storage == old(storage)[id := chat] && messages == old(messages)[id := []]
    {
      chat, err := NewChat(participants, id, now);
      if err.Some? {
        return null, err;
      }
      storage := storage[id := chat];
      messages := messages[id := []];
    }

    /** The ids of the stored chats that list the user. */
    ghost function ChatIdsOf(userID: string): set<string>
      reads this, storage.Values
    {
      set id | id in storage && userID in storage[id].participants
    }

    /**
     * `Get`: every stored chat that lists the user among its participants,
     * each exactly once, in map order.
     */
    method Get(userID: string) returns (result: seq<Chat>)
      requires Valid()
      ensures forall a, b :: 0 <= a < b < |result| ==> result[a] != result[b]
      ensures forall k :: 0 <= k < |result| ==>
        result[k].id in storage && storage[result[k].id] == result[k] && userID in result[k].participants
      ensures forall id :: id in ChatIdsOf(userID) ==> storage[id] in result
    {
      result := [];
      var remaining := storage.Keys;
      while remaining != {}
        invariant remaining <= storage.Keys
        invariant forall a, b :: 0 <= a < b < |result| ==> result[a].id != result[b].id
        invariant forall k :: 0 <= k < |result| ==>
          result[k].id in storage.Keys - remaining && storage[result[k].id] == result[k] && userID in result[k].participants
        invariant forall id :: id in ChatIdsOf(userID) && id !in remaining ==> storage[id] in result
        decreases remaining
      {
        var id :| id in remaining;
        var chat := storage[id];
        var listed := Lists(chat.participants, userID);
        if listed {
          result := result + [chat];
        }
        remaining := remaining - {id};
      }
    }

    /**
     * `SendMessage`: an unknown chat is NotFound and a refused `NewMessage`
     * returns its error, both changing nothing; otherwise the message is
     * appended to the repository's list and to the chat's own list.
     * The message's timestamp (`msgNow`) and the chat's new update time
     * (`chatNow`) are two separate readings of the clock.
     */
    method SendMessage(chatID: string, authorID: string, content: string, msgID: string, msgNow: int, chatNow: int)
      returns (err: Option<Error>)
      requires Valid()
      modifies this, if chatID in storage then {storage[chatID]} else {}
      ensures Valid()
      ensures storage == old(storage)
      ensures chatID !in old(storage) ==>
        err == Some(ServiceErrors.NewNotFoundError("chat not found")) && messages == old(messages)
      ensures chatID in old(storage) && CheckNewMessage(authorID, content).Some? ==>
        err == CheckNewMessage(authorID, content) && messages == old(messages)
        && unchanged(storage[chatID])
      ensures chatID in old(storage) && CheckNewMessage(authorID, content).None? ==>
        err.None?
        && messages == old(messages)[chatID := old(messages)[chatID] + [Message(msgID, authorID, content, msgNow)]]
        && storage[chatID].updatedAt == chatNow
    {
      if chatID !in storage {
        return Some(ServiceErrors.NewNotFoundError("chat not found"));
      }
      var chat := storage[chatID];
      var msg := NewMessage(authorID, content, msgID, msgNow);
      if msg.Err? {
        return Some(msg.error);
      }
      messages := messages[chatID := messages[chatID] + [msg.value]];
      var _ := chat.AddMessage(Some(msg.value), chatNow);
      return None;
    }

    /** `GetMessages`: the chat's list, or no list and no error for an unknown chat. */
    method GetMessages(chatID: string) returns (msgs: Option<seq<Message>>, err: Option<Error>)
      requires Valid()
      ensures err.None?
      ensures chatID in storage <==> msgs.Some?
      ensures msgs.Some? ==> msgs.value == messages[chatID] && msgs.value == storage[chatID].messages
    {
      if chatID !in messages {
        return None, None;
      }
      return Some(messages[chatID]), None;
    }
  }

  /** The inner participant scan of `Get`: stops at the first match. */
  method Lists(participants: seq<string>, userID: string) returns (found: bool)
    ensures found <==> userID in participants
  {
    found := false;
    var i := 0;
    while i < |participants|
      invariant 0 <= i <= |participants|
      invariant userID !in participants[..i]
    {
      if participants[i] == userID {
        return true;
      }
      i := i + 1;
    }
  }
}
