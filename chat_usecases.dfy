/**
 * The chat use cases under chat-service/internal/app/usecases/chat: the
 * mappers from models to DTOs (mapper.go), `CreateChat` (create.go) and
 * `SendMessage` (send_message.go).  The users and friends clients, the chat-id
 * parser and the repository the transaction runs against are parameters; the
 * transaction manager only runs its closure and is not modelled.
 */
module ChatUseCases {
  import opened Wrappers
  import opened ErrorChain
  import ServiceErrors
  import opened ChatModel
  import opened Strings

  /** `ports.MessageDto`. */
  datatype MessageDto = MessageDto(id: string, authorID: string, content: string, timestamp: int)

  /** `ports.ChatDto`. */
  datatype ChatDto = ChatDto(id: string, participants: seq<string>, messages: seq<MessageDto>,
                             createdAt: int, updatedAt: int)

  function ToMessageDto(m: Message): MessageDto
  {
    MessageDto(m.id, m.authorID, m.content, m.timestamp)
  }

  function FromMessageDto(d: MessageDto): Message
  {
    Message(d.id, d.authorID, d.content, d.timestamp)
  }

  /** The DTO of each message, position by position. */
  function MessageDtos(ms: seq<Message>): (ds: seq<MessageDto>)
    ensures |ds| == |ms|
    ensures forall k :: 0 <= k < |ms| ==> ds[k] == ToMessageDto(ms[k])
  {
    seq(|ms|, k requires 0 <= k < |ms| => ToMessageDto(ms[k]))
  }

  /** Every field of a message survives the copy into its DTO, so the list can be read back. */
  lemma MessageDtosLoseNothing(ms: seq<Message>)
    ensures forall k :: 0 <= k < |ms| ==> FromMessageDto(MessageDtos(ms)[k]) == ms[k]
    ensures forall ns: seq<Message> :: MessageDtos(ns) == MessageDtos(ms) ==> ns == ms
  {
    forall ns: seq<Message> | MessageDtos(ns) == MessageDtos(ms) ensures ns == ms {
      assert |ns| == |ms|;
      forall k | 0 <= k < |ms| ensures ns[k] == ms[k] {
        assert FromMessageDto(ToMessageDto(ns[k])) == FromMessageDto(ToMessageDto(ms[k]));
      }
    }
  }

  /** `mapMessagesToDto`. */
  method MapMessagesToDto(messages: seq<Message>) returns (dtos: seq<MessageDto>)
    ensures dtos == MessageDtos(messages)
  {
    dtos := [];
    for i := 0 to |messages|
      invariant dtos == MessageDtos(messages[..i])
    {
      assert messages[..i + 1] == messages[..i] + [messages[i]];
      dtos := dtos + [ToMessageDto(messages[i])];
    }
    assert messages[..|messages|] == messages;
  }

  /** A failed message lookup counts as an empty history. */
  function MessagesOrEmpty(r: Result<seq<Message>, Error>): seq<Message>
  {
    if r.Ok? then r.value else []
  }

  /**
   * `mapChatsToDto`: one DTO per chat, in input order, carrying the chat's id,
   * participants and times and the DTOs of its messages as the repository
   * reports them (`getMessages`), or none when that lookup fails.
   */
  method MapChatsToDto(chats: seq<Chat>, getMessages: string -> Result<seq<Message>, Error>)
    returns (dtos: seq<ChatDto>)
    ensures |dtos| == |chats|
    ensures forall k :: 0 <= k < |chats| ==>
      dtos[k] == ChatDto(chats[k].id, chats[k].participants, MessageDtos(MessagesOrEmpty(getMessages(chats[k].id))),
                         chats[k].createdAt, chats[k].updatedAt)
  {
    dtos := [];
    for i := 0 to |chats|
      invariant |dtos| == i
      invariant forall k :: 0 <= k < i ==>
        dtos[k] == ChatDto(chats[k].id, chats[k].participants, MessageDtos(MessagesOrEmpty(getMessages(chats[k].id))),
                           chats[k].createdAt, chats[k].updatedAt)
    {
      var chat := chats[i];
      var messages: seq<Message>;
      var found := getMessages(chat.id);
      if found.Err? {
        messages := [];
      } else {
        messages := found.value;
      }
      var messageDtos := MapMessagesToDto(messages);
      dtos := dtos + [ChatDto(chat.id, chat.participants, messageDtos, chat.createdAt, chat.updatedAt)];
    }
  }

  // ---------------------------------------------------------------- CreateChat

  /** The part of `users.GetProfilesResponse` `CreateChat` reads. */
  datatype ProfilesResponse = ProfilesResponse(notFoundIds: seq<string>)

  /** `ports.CheckFriendshipsStatusResponse`. */
  datatype FriendshipsResponse = FriendshipsResponse(nonFriendPairs: seq<(string, string)>, allAreFriends: bool)

  /** The outside calls a use case makes, in order. */
  datatype Call =
    | GetProfiles(userIds: seq<string>)
    | CheckFriendshipsStatus(userIds: seq<string>)
    | CreateInRepository(participants: seq<string>)
    | GetUserProfile(userId: string)
    | ParseChatID(text: string)
    | SendInRepository(chatId: string, authorId: string, content: string)

  /** How the checks before the transaction end: an error or none, and the calls made on the way. */
  datatype Checked = Checked(err: Option<Error>, calls: seq<Call>)

  /**
   * The checks `CreateChat` makes before it opens the transaction, in source
   * order: at least two participants, the profile lookup, unknown users, the
   * friendship check and its verdict.
   */
  function CreateChatChecks(participants: seq<string>,
                            getProfiles: seq<string> -> Result<ProfilesResponse, Error>,
                            checkFriendships: seq<string> -> Result<FriendshipsResponse, Error>): (r: Checked)
    ensures r.calls <= [GetProfiles(participants), CheckFriendshipsStatus(participants)]
    ensures r.calls == [] <==> |participants| < 2
    ensures |r.calls| == 2 ==> getProfiles(participants).Ok? && getProfiles(participants).value.notFoundIds == []
    ensures r.calls == [] ==> r.err.Some?
  {
    if |participants| < 2 then
      Checked(Some(ServiceErrors.NewInvalidInputError("chat requires at least 2 participants")), [])
    else
      var profiles := getProfiles(participants);
      if profiles.Err? then
        Checked(Some(Wrapped("failed to get user profiles: " + Text(profiles.error), profiles.error)),
                [GetProfiles(participants)])
      else if |profiles.value.notFoundIds| > 0 then
        Checked(Some(ServiceErrors.NewNotFoundError("users not found: " + Join(profiles.value.notFoundIds, ", "))),
                [GetProfiles(participants)])
      else
        var calls := [GetProfiles(participants), CheckFriendshipsStatus(participants)];
        var friendship := checkFriendships(participants);
        if friendship.Err? then Checked(Some(friendship.error), calls)
        else if !friendship.value.allAreFriends then
          if |friendship.value.nonFriendPairs| > 0 then
            var pair := friendship.value.nonFriendPairs[0];
            Checked(Some(ServiceErrors.NewForbiddenError("users " + pair.0 + " and " + pair.1 + " are not friends")), calls)
          else
            Checked(Some(ServiceErrors.NewForbiddenError("some participants are not friends")), calls)
        else Checked(None, calls)
  }

  /**
   * The checks pass exactly when there are two or more participants, every
   * one has a profile and the friends service says all are friends; each
   * failure keeps the kind of error its step stands for.
   */
  lemma CreateChatChecksMeaning(participants: seq<string>,
                                getProfiles: seq<string> -> Result<ProfilesResponse, Error>,
                                checkFriendships: seq<string> -> Result<FriendshipsResponse, Error>)
    ensures CreateChatChecks(participants, getProfiles, checkFriendships).err.None? <==>
      && |participants| >= 2
      && getProfiles(participants).Ok? && getProfiles(participants).value.notFoundIds == []
      && checkFriendships(participants).Ok? && checkFriendships(participants).value.allAreFriends
    ensures |participants| < 2 ==> Is(CreateChatChecks(participants, getProfiles, checkFriendships).err.value, ErrInvalidInput)
    ensures |participants| >= 2 && getProfiles(participants).Err? ==>
      forall s :: Is(CreateChatChecks(participants, getProfiles, checkFriendships).err.value, s) <==> Is(getProfiles(participants).error, s)
    ensures |participants| >= 2 && getProfiles(participants).Ok? && getProfiles(participants).value.notFoundIds != [] ==>
      var e := CreateChatChecks(participants, getProfiles, checkFriendships).err.value;
      Is(e, ErrNotFound) && forall k :: 0 <= k < |getProfiles(participants).value.notFoundIds| ==>
        Occurs(getProfiles(participants).value.notFoundIds[k], Text(e))
    ensures |participants| >= 2 && getProfiles(participants).Ok? && getProfiles(participants).value.notFoundIds == []
            && checkFriendships(participants).Err? ==>
      CreateChatChecks(participants, getProfiles, checkFriendships).err == Some(checkFriendships(participants).error)
    ensures |participants| >= 2 && getProfiles(participants).Ok? && getProfiles(participants).value.notFoundIds == []
            && checkFriendships(participants).Ok? && !checkFriendships(participants).value.allAreFriends ==>
      Is(CreateChatChecks(participants, getProfiles, checkFriendships).err.value, ErrForbidden)
  {
    if |participants| >= 2 && getProfiles(participants).Err? {
      var e := getProfiles(participants).error;
      WrappingPreservesChainAll("failed to get user profiles: " + Text(e), e);
    }
    if |participants| >= 2 && getProfiles(participants).Ok? && getProfiles(participants).value.notFoundIds != [] {
      var nf := getProfiles(participants).value.notFoundIds;
      var prefix := "users not found: ";
      JoinMentionsAll(nf, ", ");
      forall k | 0 <= k < |nf| ensures Occurs(nf[k], prefix + Join(nf, ", ")) {
        OccursInContext(nf[k], Join(nf, ", "), prefix, "");
        assert prefix + Join(nf, ", ") + "" == prefix + Join(nf, ", ");
      }
    }
  }

  lemma WrappingPreservesChainAll(t: string, e: Error)
    ensures forall s :: Is(Wrapped(t, e), s) <==> Is(e, s)
  {
  }

  /**
   * `CreateChat`: after the checks pass, the repository's `Create` runs inside
   * the transaction and `create` is its answer.  Its error comes back wrapped
   * as "failed to create chat: …" with the repository's error still in the
   * chain; on success the DTO carries the new chat's id, participants and
   * times with no messages.
   */
  method CreateChat(participants: seq<string>,
                    getProfiles: seq<string> -> Result<ProfilesResponse, Error>,
                    checkFriendships: seq<string> -> Result<FriendshipsResponse, Error>,
                    create: seq<string> -> Result<Chat, Error>)
    returns (dto: Option<ChatDto>, err: Option<Error>, calls: seq<Call>)
    ensures dto.Some? <==> err.None?
    ensures var c := CreateChatChecks(participants, getProfiles, checkFriendships);
      c.err.Some? ==> err == c.err && calls == c.calls
    ensures var c := CreateChatChecks(participants, getProfiles, checkFriendships);
      c.err.None? ==> calls == c.calls + [CreateInRepository(participants)]
    ensures var c := CreateChatChecks(participants, getProfiles, checkFriendships);
      c.err.None? && create(participants).Err? ==>
        var e := create(participants).error;
        err == Some(Wrapped("failed to create chat: " + Text(e), e))
        && forall s :: Is(err.value, s) <==> Is(e, s)
    ensures var c := CreateChatChecks(participants, getProfiles, checkFriendships);
      c.err.None? && create(participants).Ok? ==>
        var chat := create(participants).value;
        dto == Some(ChatDto(chat.id, chat.participants, [], chat.createdAt, chat.updatedAt))
  {
    var checked := CreateChatChecks(participants, getProfiles, checkFriendships);
    if checked.err.Some? {
      return None, checked.err, checked.calls;
    }
    calls := checked.calls + [CreateInRepository(participants)];
    var created := create(participants);
    if created.Err? {
      var e := created.error;
      WrappingPreservesChainAll("failed to create chat: " + Text(e), e);
      return None, Some(Wrapped("failed to create chat: " + Text(e), e)), calls;
    }
    var chat := created.value;
    dto := Some(ChatDto(chat.id, chat.participants, [], chat.createdAt, chat.updatedAt));
    err := None;
  }

  // ---------------------------------------------------------------- SendMessage

  /** What `SendMessage` returns and the calls it made. */
  datatype Sent = Sent(result: Result<MessageDto, Error>, calls: seq<Call>)

  /**
   * `SendMessage`: the chat id, author and content must be non-empty, in that
   * order and before any call; then the author's profile, the chat-id parse
   * and the repository's send, each error returned as it came.
   */
  function SendMessage(chatID: string, authorID: string, content: string,
                       getUserProfile: string -> Option<Error>,
                       parseChatID: string -> Result<string, Error>,
                       send: (string, string, string) -> Result<Message, Error>): (r: Sent)
    ensures r.calls <= [GetUserProfile(authorID), ParseChatID(chatID),
                        SendInRepository(if parseChatID(chatID).Ok? then parseChatID(chatID).value else "", authorID, content)]
    ensures r.calls == [] <==> chatID == "" || authorID == "" || content == ""
    ensures r.result.Ok? <==> |r.calls| == 3 && parseChatID(chatID).Ok? && send(parseChatID(chatID).value, authorID, content).Ok?
  {
    if chatID == "" then Sent(Err(ServiceErrors.NewInvalidInputError("chat ID is required")), [])
    else if authorID == "" then Sent(Err(ServiceErrors.NewInvalidInputError("author ID is required")), [])
    else if content == "" then Sent(Err(ServiceErrors.NewInvalidInputError("message content is required")), [])
    else
      var profileErr := getUserProfile(authorID);
      if profileErr.Some? then Sent(Err(profileErr.value), [GetUserProfile(authorID)])
      else
        var id := parseChatID(chatID);
        if id.Err? then Sent(Err(id.error), [GetUserProfile(authorID), ParseChatID(chatID)])
        else
          var calls := [GetUserProfile(authorID), ParseChatID(chatID), SendInRepository(id.value, authorID, content)];
          var msg := send(id.value, authorID, content);
          if msg.Err? then Sent(Err(msg.error), calls)
          else Sent(Ok(ToMessageDto(msg.value)), calls)
  }

  /**
   * A message is sent exactly when the three fields are present and every
   * collaborator succeeds; the DTO is the stored message read back, and each
   * failure is the error of the first step that failed.
   */
  lemma SendMessageMeaning(chatID: string, authorID: string, content: string,
                           getUserProfile: string -> Option<Error>,
                           parseChatID: string -> Result<string, Error>,
                           send: (string, string, string) -> Result<Message, Error>)
    ensures var r := SendMessage(chatID, authorID, content, getUserProfile, parseChatID, send).result;
      r.Ok? <==>
        chatID != "" && authorID != "" && content != "" && getUserProfile(authorID).None?
        && parseChatID(chatID).Ok? && send(parseChatID(chatID).value, authorID, content).Ok?
    ensures var r := SendMessage(chatID, authorID, content, getUserProfile, parseChatID, send).result;
      r.Ok? ==> FromMessageDto(r.value) == send(parseChatID(chatID).value, authorID, content).value
    ensures var r := SendMessage(chatID, authorID, content, getUserProfile, parseChatID, send).result;
      (chatID == "" || authorID == "" || content == "") ==> Is(r.error, ErrInvalidInput)
    ensures var r := SendMessage(chatID, authorID, content, getUserProfile, parseChatID, send).result;
      chatID != "" && authorID != "" && content != "" && getUserProfile(authorID).Some? ==>
        r == Err(getUserProfile(authorID).value)
    ensures var r := SendMessage(chatID, authorID, content, getUserProfile, parseChatID, send).result;
      chatID != "" && authorID != "" && content != "" && getUserProfile(authorID).None? && parseChatID(chatID).Err? ==>
        r == Err(parseChatID(chatID).error)
  {
  }
}
