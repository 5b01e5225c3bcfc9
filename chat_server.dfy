/**
 * chat-service/internal/server/server.go: the in-memory `ChatStorage` with
 * offset/limit pagination, and the checks the gRPC handlers make before they
 * touch it.
 *
 * Request validation (protovalidate), the users and friends clients, UUID
 * generation and the clock are outside the model: their answers are
 * parameters of the handlers.
 */
module ChatServer {
  import opened Wrappers
  import opened GrpcCodes
  import opened ErrorChain
  import opened IndexPairs
  import Protos

  type int32 = x: int | -0x8000_0000 <= x < 0x8000_0000

  /** Go's conversion of an integer to int32: two's-complement wrap-around. */
  function Wrap32(x: int): (r: int32)
    ensures -0x8000_0000 <= x < 0x8000_0000 ==> r == x
    ensures 0x8000_0000 <= x < 0x1_0000_0000 ==> r == x - 0x1_0000_0000
  {
    (x + 0x8000_0000) % 0x1_0000_0000 - 0x8000_0000
  }

  /** A stored `*chat.Chat`: id and participants are fixed, the last message is updated in place. */
  class ChatRecord {
    const chatId: string
    const participants: seq<string>
    var lastMessage: Option<Protos.Message>

    constructor (chatId: string, participants: seq<string>, lastMessage: Option<Protos.Message>)
      ensures this.chatId == chatId && this.participants == participants && this.lastMessage == lastMessage
    {
      this.chatId := chatId;
      this.participants := participants;
      this.lastMessage := lastMessage;
    }
  }

  // ---------------------------------------------------------------- pagination

  const DefaultLimit := 20

  function EffectiveLimit(limit: int32): int32
  {
    if limit <= 0 then DefaultLimit else limit
  }

  function EffectiveOffset(offset: int32): int32
  {
    if offset < 0 then 0 else offset
  }

  function Min(a: int, b: int): int
  {
    if a < b then a else b
  }

  /**
   * The page `GetMessages` is meant to return: the messages from the offset
   * (clamped at 0) up to offset + limit (limit defaulting to 20), cut at the
   * end of the list; nothing when the offset is past the end.
   */
  function Page<M>(msgs: seq<M>, limit: int32, offset: int32): (p: seq<M>)
    ensures |p| <= EffectiveLimit(limit)
    ensures EffectiveOffset(offset) < |msgs| ==>
      EffectiveOffset(offset) + |p| <= |msgs| && p == msgs[EffectiveOffset(offset)..EffectiveOffset(offset) + |p|]
    ensures |p| == 0 <==> EffectiveOffset(offset) >= |msgs|
    ensures EffectiveOffset(offset) < |msgs| ==> |p| == Min(EffectiveLimit(limit), |msgs| - EffectiveOffset(offset))
  {
    var start := EffectiveOffset(offset);
    var end := start + EffectiveLimit(limit);
    if start >= |msgs| then [] else msgs[start..Min(end, |msgs|)]
  }

  /**
   * `GetMessages` as written: `end := int(offset + limit)` adds in int32, so
   * the sum wraps; a wrapped end below the start makes `msgs[start:end]`
   * panic, shown as None.
   */
  function PageAsWritten<M>(msgs: seq<M>, limit: int32, offset: int32): Option<seq<M>>
  {
    var lim := EffectiveLimit(limit);
    var off := EffectiveOffset(offset);
    var start := off;
    var end := Wrap32(off + lim);
    if start >= |msgs| then Some([])
    else
      var end' := if end > |msgs| then |msgs| else end;
      if end' < start then None else Some(msgs[start..end'])
  }

  /** Two consecutive pages of the same limit are the run of the list they cover together. */
  lemma PagesTile<M>(msgs: seq<M>, limit: int32, offset: int32)
    requires limit > 0 && offset >= 0 && offset + limit < 0x8000_0000
    ensures Page(msgs, limit, offset) + Page(msgs, limit, (offset + limit) as int32)
         == msgs[Min(offset, |msgs|)..Min(offset + 2 * limit, |msgs|)]
  {
  }

  /** Where the code as written does not panic it returns the intended page; it panics exactly when the int32 sum overflows on a non-empty page. */
  lemma PageAsWrittenAgrees<M>(msgs: seq<M>, limit: int32, offset: int32)
    ensures PageAsWritten(msgs, limit, offset).Some? ==> PageAsWritten(msgs, limit, offset).value == Page(msgs, limit, offset)
    ensures PageAsWritten(msgs, limit, offset).None? <==>
      EffectiveOffset(offset) < |msgs| && EffectiveOffset(offset) + EffectiveLimit(limit) >= 0x8000_0000
  {
  }

  /** A concrete input that makes the code as written slice with end < start: offset 1, limit MaxInt32, two messages. */
  lemma PageOverflowWitness<M>(m: M)
    ensures PageAsWritten([m, m], 0x7fff_ffff, 1).None?
    ensures Page([m, m], 0x7fff_ffff, 1) == [m]
  {
  }

  // ---------------------------------------------------------------- storage

  class ChatStorage {
    var chats: map<string, ChatRecord>
    var messages: map<string, seq<Protos.Message>>

    /** Every chat is stored under its own id. */
    ghost predicate Valid()
      reads this
    {
      forall id :: id in chats ==> chats[id].chatId == id
    }

    /** `NewChatStorage()`. */
    constructor ()
      ensures Valid() && chats == map[] && messages == map[]
    {
      chats := map[];
      messages := map[];
    }

    /** `CreateChat`: stores a new chat (replacing one with the same id) and resets its message list. */
    method CreateChat(chatID: string, participants: seq<string>) returns (c: ChatRecord)
      requires Valid()
      modifies this
      ensures Valid()
      ensures fresh(c) && c.chatId == chatID && c.participants == participants && c.lastMessage.None?
      ensures chats == old(chats)[chatID := c]
      ensures messages == old(messages)[chatID := []]
    {
      c := new ChatRecord(chatID, participants, None);
      chats := chats[chatID := c];
      messages := messages[chatID := []];
    }

    /** `GetChat`: the stored chat, if any. */
    method GetChat(chatID: string) returns (c: Option<ChatRecord>)
      ensures c.Some? <==> chatID in chats
      ensures c.Some? ==> c.value == chats[chatID] && c.value.chatId == chatID
      requires Valid()
    {
      if chatID in chats {
        return Some(chats[chatID]);
      }
      return None;
    }

    /** The ids of the stored chats that list the user. */
    ghost function UserChatIds(userID: string): set<string>
      reads this
    {
      set id | id in chats && userID in chats[id].participants
    }

    ghost predicate HasMessages(id: string)
      reads this
    {
      id in messages && |messages[id]| > 0
    }

    /**
     * `GetUserChats`: each chat that lists the user, once, in map order. A
     * chat with stored messages comes back as a fresh copy whose last message
     * is the last stored one; any other chat comes back as the stored object.
     */
    method GetUserChats(userID: string) returns (r: seq<ChatRecord>)
      requires Valid()
      ensures forall a, b :: 0 <= a < b < |r| ==> r[a].chatId != r[b].chatId
      ensures IdsOf(r) == UserChatIds(userID)
      ensures forall k :: 0 <= k < |r| ==> Listed(r[k])
      ensures forall k :: 0 <= k < |r| && HasMessages(r[k].chatId) ==> fresh(r[k])
    {
      r := [];
      var remaining := chats.Keys;
      while remaining != {}
        invariant remaining <= chats.Keys
        invariant forall a, b :: 0 <= a < b < |r| ==> r[a].chatId != r[b].chatId
        invariant IdsOf(r) == set id | id in chats.Keys - remaining && userID in chats[id].participants
        invariant forall k :: 0 <= k < |r| ==> Listed(r[k])
        invariant forall k :: 0 <= k < |r| && HasMessages(r[k].chatId) ==> fresh(r[k])
        decreases remaining
      {
        var id :| id in remaining;
        var c := chats[id];
        var member := Contains(c.participants, userID);
        if member {
          var listed := Listing(c);
          IdsOfSnoc(r, listed);
          r := r + [listed];
        }
        remaining := remaining - {id};
      }
    }

    /** The entry `GetUserChats` lists for a stored chat: a fresh copy carrying its last message, or the chat itself. */
    method Listing(c: ChatRecord) returns (listed: ChatRecord)
      requires c.chatId in chats && chats[c.chatId] == c
      ensures listed.chatId == c.chatId && Listed(listed)
      ensures HasMessages(c.chatId) ==> fresh(listed)
    {
      var cid := c.chatId;
      if cid in messages && |messages[cid]| > 0 {
        var msgs := messages[cid];
        listed := new ChatRecord(cid, c.participants, Some(msgs[|msgs| - 1]));
      } else {
        listed := c;
      }
    }

    /** How a chat the user belongs to is listed: its stored participants, and its last stored message. */
    ghost predicate Listed(c: ChatRecord)
      reads this, c
    {
      && c.chatId in chats
      && c.participants == chats[c.chatId].participants
      && (HasMessages(c.chatId) ==> c.lastMessage == Some(messages[c.chatId][|messages[c.chatId]| - 1]))
      && (!HasMessages(c.chatId) ==> c == chats[c.chatId])
    }

    /**
     * `AddMessage`: appends the message to the chat's list (creating the list
     * if absent) and, when the chat exists, makes it that chat's last message.
     */
    method AddMessage(chatID: string, msg: Protos.Message)
      requires Valid()
      modifies this, if chatID in chats then {chats[chatID]} else {}
      ensures Valid()
      ensures chats == old(chats)
      ensures messages == old(messages)[chatID := (if chatID in old(messages) then old(messages[chatID]) else []) + [msg]]
      ensures chatID in chats ==> chats[chatID].lastMessage == Some(msg)
      ensures forall id :: id in chats && id != chatID ==> chats[id].lastMessage == old(chats[id].lastMessage)
    {
      if chatID !in messages {
        messages := messages[chatID := []];
      }
      messages := messages[chatID := messages[chatID] + [msg]];
      if chatID in chats {
        chats[chatID].lastMessage := Some(msg);
      }
    }

    /**
     * `GetMessages` with the page end computed without int32 overflow; the
     * total is the full count as an int32, whatever the limit and offset.
     */
    method GetMessages(chatID: string, limit: int32, offset: int32) returns (page: seq<Protos.Message>, total: int32)
      ensures chatID !in messages ==> page == [] && total == 0
      ensures chatID in messages ==>
        page == Page(messages[chatID], limit, offset) && total == Wrap32(|messages[chatID]|)
    {
      if chatID !in messages {
        return [], 0;
      }
      var msgs := messages[chatID];
      total := Wrap32(|msgs|);
      var lim := limit;
      if lim <= 0 {
        lim := DefaultLimit;
      }
      var off := offset;
      if off < 0 {
        off := 0;
      }
      var start := off as int;
      var end := off as int + lim as int;
      if start >= |msgs| {
        return [], total;
      }
      if end > |msgs| {
        end := |msgs|;
      }
      page := msgs[start..end];
    }
  }

  // ---------------------------------------------------------------- handlers

  /** What the friends client answers for one pair: an error, or a status. */
  datatype FriendCheck = CheckFailed(err: Error) | CheckStatus(status: Protos.FriendshipStatus)

  /** The nested loops refuse the pair of participants at these indexes: the check does not say ACCEPTED. */
  predicate Refused(ps: seq<string>, check: (string, string) -> FriendCheck, p: (nat, nat))
  {
    p.0 < |ps| && p.1 < |ps| && check(ps[p.0], ps[p.1]) != CheckStatus(Protos.StatusAccepted)
  }

  /** The first refused pair among `pairs`. */
  function FirstNonFriends(ps: seq<string>, pairs: seq<(nat, nat)>, check: (string, string) -> FriendCheck): (r: Option<(nat, nat)>)
    ensures r.Some? ==> Refused(ps, check, r.value)
  {
    if pairs == [] then None
    else if Refused(ps, check, pairs[0]) then Some(pairs[0])
    else FirstNonFriends(ps, pairs[1..], check)
  }

  /** The first refused pair is one of the pairs, and there is none exactly when no pair is refused. */
  lemma {:induction false} FirstNonFriendsMeaning(ps: seq<string>, pairs: seq<(nat, nat)>, check: (string, string) -> FriendCheck)
    ensures FirstNonFriends(ps, pairs, check).Some? ==> FirstNonFriends(ps, pairs, check).value in pairs
    ensures FirstNonFriends(ps, pairs, check).None? <==> forall p :: p in pairs ==> !Refused(ps, check, p)
  {
    if pairs != [] && !Refused(ps, check, pairs[0]) {
      FirstNonFriendsMeaning(ps, pairs[1..], check);
      assert forall p :: p in pairs ==> p == pairs[0] || p in pairs[1..];
    }
  }

  lemma {:induction false} FirstNonFriendsAppend(ps: seq<string>, a: seq<(nat, nat)>, b: seq<(nat, nat)>,
                                                 check: (string, string) -> FriendCheck)
    ensures FirstNonFriends(ps, a + b, check) ==
      if FirstNonFriends(ps, a, check).Some? then FirstNonFriends(ps, a, check) else FirstNonFriends(ps, b, check)
    decreases |a|
  {
    if a == [] {
      assert a + b == b;
    } else {
      assert (a + b)[1..] == a[1..] + b;
      FirstNonFriendsAppend(ps, a[1..], b, check);
    }
  }

  /** The first participant whose profile lookup fails. */
  function FirstUnknownUser(ps: seq<string>, profileFound: string -> bool): (r: Option<nat>)
    ensures r.Some? ==> r.value < |ps| && !profileFound(ps[r.value])
                        && forall k :: 0 <= k < r.value ==> profileFound(ps[k])
    ensures r.None? <==> forall k :: 0 <= k < |ps| ==> profileFound(ps[k])
  {
    if ps == [] then None
    else if !profileFound(ps[0]) then Some(0)
    else
      var rest := FirstUnknownUser(ps[1..], profileFound);
      if rest.None? then None else Some(rest.value + 1)
  }

  /** The error of the handler's checks, in their order: too few participants, an unknown user, then the pairwise friendship checks. */
  function CreateChatCheck(ps: seq<string>, profileFound: string -> bool, check: (string, string) -> FriendCheck): Option<Error>
  {
    if |ps| < 2 then Some(Status(InvalidArgument, "chat must have at least 2 participants"))
    else if FirstUnknownUser(ps, profileFound).Some? then
      Some(Status(NotFound, "user " + ps[FirstUnknownUser(ps, profileFound).value] + " not found"))
    else
      var bad := FirstNonFriends(ps, AllPairs(|ps|), check);
      if bad.None? then None
      else match check(ps[bad.value.0], ps[bad.value.1])
        case CheckFailed(e) => Some(Status(Internal, "failed to check friendship status: " + Text(e)))
        case CheckStatus(_) =>
          Some(Status(PermissionDenied, "users " + ps[bad.value.0] + " and " + ps[bad.value.1] + " are not friends"))
  }

  /**
   * A chat is created exactly when there are at least two participants, every
   * one of them is a known user, and every pair of them is an accepted
   * friendship; a refused pair is the first one in loop order.
   */
  lemma CreateChatCheckMeaning(ps: seq<string>, profileFound: string -> bool, check: (string, string) -> FriendCheck)
    ensures CreateChatCheck(ps, profileFound, check).None? <==>
      && |ps| >= 2
      && (forall k :: 0 <= k < |ps| ==> profileFound(ps[k]))
      && (forall i, j :: 0 <= i < j < |ps| ==> check(ps[i], ps[j]) == CheckStatus(Protos.StatusAccepted))
  {
    AllPairsFacts(|ps|);
    FirstNonFriendsMeaning(ps, AllPairs(|ps|), check);
    if CreateChatCheck(ps, profileFound, check).None? {
      forall i, j | 0 <= i < j < |ps| ensures check(ps[i], ps[j]) == CheckStatus(Protos.StatusAccepted) {
        assert !Refused(ps, check, (i as nat, j as nat));
      }
    }
  }

  datatype CreateChatResponse = CreateChatResponse(chatId: string, success: bool, message: string)

  /** `chat.SendMessageResponse`. */
  datatype SendMessageResponse = SendMessageResponse(message: Protos.Message, success: bool, messageInfo: string)

  datatype ChatHistory = ChatHistory(messages: seq<Protos.Message>, totalMessages: int32)

  class ChatServiceServer {
    const storage: ChatStorage

    constructor (storage: ChatStorage)
      ensures this.storage == storage
    {
      this.storage := storage;
    }

    /**
     * The `CreateChat` handler after request validation: `profileFound` is
     * the users client, `check` the friends client, `newChatId` the UUID it
     * draws.
     */
    method CreateChat(participants: seq<string>, profileFound: string -> bool,
                      check: (string, string) -> FriendCheck, newChatId: string)
      returns (r: Result<CreateChatResponse, Error>)
      requires storage.Valid()
      modifies storage
      ensures storage.Valid()
      ensures CreateChatCheck(participants, profileFound, check).Some? ==>
        r == Err(CreateChatCheck(participants, profileFound, check).value)
        && storage.chats == old(storage.chats) && storage.messages == old(storage.messages)
      ensures CreateChatCheck(participants, profileFound, check).None? ==>
        r == Ok(CreateChatResponse(newChatId, true, "Chat created successfully"))
        && storage.chats.Keys == old(storage.chats).Keys + {newChatId}
        && fresh(storage.chats[newChatId])
        && storage.chats[newChatId].participants == participants
        && (forall id :: id in old(storage.chats) && id != newChatId ==> storage.chats[id] == old(storage.chats[id]))
        && storage.messages == old(storage.messages)[newChatId := []]
    {
      if |participants| < 2 {
        return Err(Status(InvalidArgument, "chat must have at least 2 participants"));
      }
      for k := 0 to |participants|
        invariant forall m :: 0 <= m < k ==> profileFound(participants[m])
      {
        if !profileFound(participants[k]) {
          return Err(Status(NotFound, "user " + participants[k] + " not found"));
        }
      }
      var bad := FindNonFriends(participants, check);
      if bad.Some? {
        var (i, j) := bad.value;
        assert Refused(participants, check, (i, j));
        var resp := check(participants[i], participants[j]);
        if resp.CheckFailed? {
          return Err(Status(Internal, "failed to check friendship status: " + Text(resp.err)));
        }
        return Err(Status(PermissionDenied, "users " + participants[i] + " and " + participants[j] + " are not friends"));
      }
      var _ := storage.CreateChat(newChatId, participants);
      return Ok(CreateChatResponse(newChatId, true, "Chat created successfully"));
    }

    /** `SendMessage` after request validation; `messageId` and `now` are the UUID and the clock. */
    method SendMessage(chatID: string, authorID: string, content: string, messageId: string, now: int)
      returns (r: Result<SendMessageResponse, Error>)
      requires storage.Valid()
      modifies storage, if chatID in storage.chats then {storage.chats[chatID]} else {}
      ensures storage.Valid()
      ensures storage.chats == old(storage.chats)
      ensures chatID !in old(storage.chats) ==>
        r == Err(Status(NotFound, "chat not found")) && storage.messages == old(storage.messages)
      ensures chatID in old(storage.chats) && authorID !in old(storage.chats[chatID].participants) ==>
        r == Err(Status(PermissionDenied, "user is not a participant in this chat"))
        && storage.messages == old(storage.messages)
        && storage.chats[chatID].lastMessage == old(storage.chats[chatID].lastMessage)
      ensures chatID in old(storage.chats) && authorID in old(storage.chats[chatID].participants) ==>
        var msg := Protos.Message(messageId, chatID, authorID, content, Some(now));
        && r == Ok(SendMessageResponse(msg, true, "Message sent successfully"))
        && storage.messages == old(storage.messages)[chatID :=
             (if chatID in old(storage.messages) then old(storage.messages[chatID]) else []) + [msg]]
        && storage.chats[chatID].lastMessage == Some(msg)
      ensures forall id :: id in storage.chats && id != chatID ==>
        storage.chats[id].lastMessage == old(storage.chats[id].lastMessage)
    {
      var chatObj := storage.GetChat(chatID);
      if chatObj.None? {
        return Err(Status(NotFound, "chat not found"));
      }
      var isParticipant := false;
      var ps := chatObj.value.participants;
      var i := 0;
      while i < |ps|
        invariant 0 <= i <= |ps|
        invariant isParticipant <==> authorID in ps[..i]
      {
        if ps[i] == authorID {
          isParticipant := true;
          assert authorID in ps[..i + 1];
          break;
        }
        assert ps[..i + 1] == ps[..i] + [ps[i]];
        i := i + 1;
      }
      assert isParticipant <==> authorID in ps by {
        if !isParticipant { assert ps[..i] == ps; }
      }
      if !isParticipant {
        return Err(Status(PermissionDenied, "user is not a participant in this chat"));
      }
      var msg := Protos.Message(messageId, chatID, authorID, content, Some(now));
      storage.AddMessage(chatID, msg);
      return Ok(SendMessageResponse(msg, true, "Message sent successfully"));
    }

    /** `GetChatHistory` after request validation. */
    method GetChatHistory(chatID: string, limit: int32, offset: int32) returns (r: Result<ChatHistory, Error>)
      requires storage.Valid()
      ensures chatID !in storage.chats ==> r == Err(Status(NotFound, "chat not found"))
      ensures chatID in storage.chats && chatID in storage.messages ==>
        r == Ok(ChatHistory(Page(storage.messages[chatID], limit, offset), Wrap32(|storage.messages[chatID]|)))
      ensures chatID in storage.chats && chatID !in storage.messages ==> r == Ok(ChatHistory([], 0))
    {
      var c := storage.GetChat(chatID);
      if c.None? {
        return Err(Status(NotFound, "chat not found"));
      }
      var msgs, total := storage.GetMessages(chatID, limit, offset);
      return Ok(ChatHistory(msgs, total));
    }

    /** `GetUserChats` after request validation; `profileErr` is the users client's error, if any. */
    method GetUserChats(userID: string, profileErr: Option<Error>) returns (r: Result<seq<ChatRecord>, Error>)
      requires storage.Valid()
      ensures profileErr.Some? ==> r == Err(Status(NotFound, "user not found: " + Text(profileErr.value)))
      ensures profileErr.None? ==>
        && r.Ok?
        && IdsOf(r.value) == storage.UserChatIds(userID)
        && (forall a, b :: 0 <= a < b < |r.value| ==> r.value[a].chatId != r.value[b].chatId)
        && (forall k :: 0 <= k < |r.value| ==> storage.Listed(r.value[k]))
        && (forall k :: 0 <= k < |r.value| && storage.HasMessages(r.value[k].chatId) ==> fresh(r.value[k]))
    {
      if profileErr.Some? {
        return Err(Status(NotFound, "user not found: " + Text(profileErr.value)));
      }
      var chats := storage.GetUserChats(userID);
      return Ok(chats);
    }
  }

  /** The chat ids of a list of chats. */
  function IdsOf(cs: seq<ChatRecord>): set<string>
  {
    set k | 0 <= k < |cs| :: cs[k].chatId
  }

  lemma IdsOfSnoc(cs: seq<ChatRecord>, c: ChatRecord)
    ensures IdsOf(cs + [c]) == IdsOf(cs) + {c.chatId}
  {
    assert forall k :: 0 <= k < |cs| ==> (cs + [c])[k] == cs[k];
    assert (cs + [c])[|cs|] == c;
  }

  /** The participant scan of `GetUserChats`. */
  method Contains(ps: seq<string>, userID: string) returns (found: bool)
    ensures found <==> userID in ps
  {
    var i := 0;
    while i < |ps|
      invariant 0 <= i <= |ps|
      invariant userID !in ps[..i]
    {
      if ps[i] == userID {
        return true;
      }
      assert ps[..i + 1] == ps[..i] + [ps[i]];
      i := i + 1;
    }
    assert ps[..i] == ps;
    return false;
  }

  /**
   * The nested loops of the `CreateChat` handler over i < j: the first pair
   * whose friendship check is not ACCEPTED, if any.
   */
  method FindNonFriends(ps: seq<string>, check: (string, string) -> FriendCheck) returns (bad: Option<(nat, nat)>)
    requires |ps| >= 2
    ensures bad == FirstNonFriends(ps, AllPairs(|ps|), check)
  {
    var n := |ps|;
    var i := 0;
    while i < n - 1
      invariant 0 <= i <= n - 1
      invariant FirstNonFriends(ps, PairsBefore(n, i), check).None?
    {
      var stop := ScanRow(ps, check, i);
      if stop.Some? {
        var j := stop.value;
        FirstNonFriendsAppend(ps, PairsBefore(n, i), Row(n, i)[..j - i - 1], check);
        FoundFirstNonFriends(ps, check, n, i, j);
        return Some((i, j));
      }
      FirstNonFriendsAppend(ps, PairsBefore(n, i), Row(n, i), check);
      i := i + 1;
    }
    LastRowEmpty(n);
    return None;
  }

  /** The inner loop for participant i: where it stops, the first later participant refused with i. */
  method ScanRow(ps: seq<string>, check: (string, string) -> FriendCheck, i: nat) returns (stop: Option<nat>)
    requires i < |ps|
    ensures stop.None? ==> FirstNonFriends(ps, Row(|ps|, i), check).None?
    ensures stop.Some? ==>
      i < stop.value < |ps| && Refused(ps, check, (i, stop.value))
      && FirstNonFriends(ps, Row(|ps|, i)[..stop.value - i - 1], check).None?
  {
    var n := |ps|;
    var j := i + 1;
    while j < n
      invariant i + 1 <= j <= n
      invariant FirstNonFriends(ps, Row(n, i)[..j - i - 1], check).None?
    {
      if check(ps[i], ps[j]) != CheckStatus(Protos.StatusAccepted) {
        return Some(j);
      }
      RowPrefixStep(n, i, j);
      NoRefusalSnoc(ps, check, Row(n, i)[..j - i - 1], (i, j));
      j := j + 1;
    }
    assert Row(n, i)[..j - i - 1] == Row(n, i);
    return None;
  }

  /** One more pair that is not refused keeps the prefix free of refusals. */
  lemma {:induction false} NoRefusalSnoc(ps: seq<string>, check: (string, string) -> FriendCheck,
                                         a: seq<(nat, nat)>, x: (nat, nat))
    requires FirstNonFriends(ps, a, check).None? && !Refused(ps, check, x)
    ensures FirstNonFriends(ps, a + [x], check).None?
  {
    FirstNonFriendsAppend(ps, a, [x], check);
    assert [x][1..] == [];
  }


  /** Once a prefix of rows holds a refused pair, later rows do not change the first one. */
  lemma {:induction false} FirstNonFriendsStays(ps: seq<string>, check: (string, string) -> FriendCheck,
                                                n: nat, i: nat, k: nat)
    requires i <= k
    requires FirstNonFriends(ps, PairsBefore(n, i), check).Some?
    ensures FirstNonFriends(ps, PairsBefore(n, k), check) == FirstNonFriends(ps, PairsBefore(n, i), check)
    decreases k
  {
    if i < k {
      FirstNonFriendsStays(ps, check, n, i, k - 1);
      FirstNonFriendsAppend(ps, PairsBefore(n, k - 1), Row(n, k - 1), check);
    }
  }

  /** A refused pair right after a refusal-free prefix is the first refused pair. */
  lemma FirstRefusedAfter(ps: seq<string>, check: (string, string) -> FriendCheck,
                          pre: seq<(nat, nat)>, x: (nat, nat), rest: seq<(nat, nat)>)
    requires FirstNonFriends(ps, pre, check).None? && Refused(ps, check, x)
    ensures FirstNonFriends(ps, pre + ([x] + rest), check) == Some(x)
  {
    FirstNonFriendsAppend(ps, pre, [x] + rest, check);
  }

  /** The pair (i, j) where the inner loop stops is the first refused pair up to the end of row i. */
  lemma FoundInRow(ps: seq<string>, check: (string, string) -> FriendCheck, n: nat, i: nat, j: nat)
    requires i < j < n
    requires FirstNonFriends(ps, PairsBefore(n, i) + Row(n, i)[..j - i - 1], check).None?
    requires Refused(ps, check, (i, j))
    ensures FirstNonFriends(ps, PairsBefore(n, i + 1), check) == Some((i, j))
  {
    RowSplit(n, i, j);
    FirstRefusedAfter(ps, check, PairsBefore(n, i) + Row(n, i)[..j - i - 1], (i, j), Row(n, i)[j - i..]);
  }

  /**
   * The pair (i, j) where the nested loops stop is the first refused pair of
   * all; stated for any bound n (the caller passes |ps|).
   */
  lemma FoundFirstNonFriends(ps: seq<string>, check: (string, string) -> FriendCheck, n: nat, i: nat, j: nat)
    requires i < j < n
    requires FirstNonFriends(ps, PairsBefore(n, i) + Row(n, i)[..j - i - 1], check).None?
    requires Refused(ps, check, (i, j))
    ensures FirstNonFriends(ps, AllPairs(n), check) == Some((i, j))
  {
    FoundInRow(ps, check, n, i, j);
    FirstNonFriendsStays(ps, check, n, i + 1, n);
  }
}
