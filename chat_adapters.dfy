/**
 * The chat-service gRPC adapters that shape use-case results into responses:
 * get_user_chats.go and get_chat_history.go under
 * chat-service/internal/app/adapters/in/grpc.  `timestamppb.New(t)` is
 * `Some(t)`; the adapters never set a message's chat id, so it stays "".
 */
module ChatAdapters {
  import opened Wrappers
  import opened ErrorChain
  import Protos
  import opened ChatUseCases
  import ChatServer

  /** The proto message an adapter builds from a message DTO. */
  function MessageToProto(m: MessageDto): (p: Protos.Message)
    ensures p.messageId == m.id && p.authorId == m.authorID && p.content == m.content
    ensures p.timestamp == Some(m.timestamp) && p.chatId == ""
  {
    Protos.Message(m.id, "", m.authorID, m.content, Some(m.timestamp))
  }

  /** The proto chat for one DTO: id and participants copied, the last message if there is one. */
  function ChatToProto(c: ChatDto): (p: Protos.Chat)
    ensures p.chatId == c.id && p.participants == c.participants
    ensures p.lastMessage.None? <==> c.messages == []
    ensures c.messages != [] ==> p.lastMessage == Some(MessageToProto(c.messages[|c.messages| - 1]))
  {
    Protos.Chat(c.id, c.participants,
                if |c.messages| > 0 then Some(MessageToProto(c.messages[|c.messages| - 1])) else None)
  }

  /** `mapDtoToProto`: one proto chat per DTO, in order. */
  method MapDtoToProto(chats: seq<ChatDto>) returns (protos: seq<Protos.Chat>)
    ensures |protos| == |chats|
    ensures forall k :: 0 <= k < |chats| ==> protos[k] == ChatToProto(chats[k])
  {
    protos := [];
    for i := 0 to |chats|
      invariant |protos| == i
      invariant forall k :: 0 <= k < i ==> protos[k] == ChatToProto(chats[k])
    {
      var v := chats[i];
      var lastMsg: Option<Protos.Message> := None;
      var msgs := v.messages;
      if |msgs| > 0 {
        var m := msgs[|msgs| - 1];
        lastMsg := Some(Protos.Message(m.id, "", m.authorID, m.content, Some(m.timestamp)));
      }
      protos := protos + [Protos.Chat(v.id, v.participants, lastMsg)];
    }
  }

  /**
   * For chats mapped from models, the last message shown is the last message
   * the repository reported for that chat.
   */
  lemma LastMessageIsLastStored(c: ChatDto, ms: seq<ChatModel.Message>)
    requires c.messages == MessageDtos(ms)
    ensures ms == [] <==> ChatToProto(c).lastMessage.None?
    ensures ms != [] ==>
      var p := ChatToProto(c).lastMessage.value;
      var m := ms[|ms| - 1];
      p.messageId == m.id && p.authorId == m.authorID && p.content == m.content && p.timestamp == Some(m.timestamp)
  {
  }

  /** `GetUserChats`, given the use case's answer. */
  method GetUserChats(chats: Result<seq<ChatDto>, Error>) returns (resp: Option<seq<Protos.Chat>>, err: Option<Error>)
    ensures chats.Err? ==> resp.None? && err == Some(chats.error)
    ensures chats.Ok? ==> err.None? && resp.Some? && |resp.value| == |chats.value|
    ensures chats.Ok? ==> forall k :: 0 <= k < |chats.value| ==> resp.value[k] == ChatToProto(chats.value[k])
  {
    if chats.Err? {
      return None, Some(chats.error);
    }
    var protos := MapDtoToProto(chats.value);
    return Some(protos), None;
  }

  /** `dtoToProto`: one proto message per DTO, in order. */
  method DtoToProto(msgs: seq<MessageDto>) returns (protos: seq<Protos.Message>)
    ensures |protos| == |msgs|
    ensures forall k :: 0 <= k < |msgs| ==> protos[k] == MessageToProto(msgs[k])
  {
    protos := [];
    for i := 0 to |msgs|
      invariant |protos| == i
      invariant forall k :: 0 <= k < i ==> protos[k] == MessageToProto(msgs[k])
    {
      var m := msgs[i];
      protos := protos + [Protos.Message(m.id, "", m.authorID, m.content, Some(m.timestamp))];
    }
  }

  /**
   * `GetChatHistory`, given the use case's answer: the messages in order and
   * their count converted to int32, which is the count itself below 2^31.
   */
  method GetChatHistory(history: Result<seq<MessageDto>, Error>) returns (resp: Option<ChatServer.ChatHistory>, err: Option<Error>)
    ensures history.Err? ==> resp.None? && err == Some(history.error)
    ensures history.Ok? ==> err.None? && resp.Some?
    ensures history.Ok? ==> resp.value.totalMessages == ChatServer.Wrap32(|history.value|)
    ensures history.Ok? && |history.value| < 0x8000_0000 ==> resp.value.totalMessages == |resp.value.messages|
    ensures history.Ok? ==>
      |resp.value.messages| == |history.value|
      && forall k :: 0 <= k < |history.value| ==> resp.value.messages[k] == MessageToProto(history.value[k])
  {
    if history.Err? {
      return None, Some(history.error);
    }
    var totalMsg := ChatServer.Wrap32(|history.value|);
    var protoMsgs := DtoToProto(history.value);
    return Some(ChatServer.ChatHistory(protoMsgs, totalMsg)), None;
  }
}
