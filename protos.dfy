/** The generated protobuf messages of pkg/api that the modelled code builds or stores, as values. */
module Protos {
  import opened Wrappers

  /** friends.FriendshipStatus. */
  datatype FriendshipStatus = StatusUnspecified | StatusRequested | StatusAccepted | StatusRejected

  /** chat.Message; a nil timestamp is None. */
  datatype Message = Message(messageId: string, chatId: string, authorId: string, content: string,
                             timestamp: Option<int>)

  /** chat.Chat as a value. */
  datatype Chat = Chat(chatId: string, participants: seq<string>, lastMessage: Option<Message>)

  /** friends.FriendInfo. */
  datatype FriendInfo = FriendInfo(userId: string, nickname: string, avatarUrl: string,
                                   status: FriendshipStatus, createdAt: Option<int>, updatedAt: Option<int>)

  /** friends.CheckFriendshipsStatusResponse_UserPair. */
  datatype UserPair = UserPair(userId1: string, userId2: string)
}
