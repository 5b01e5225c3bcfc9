# Messenger app core, modelled in Dafny

A model of the decision logic of the messenger-app Go microservices (auth,
users, friends, chat) and of the resilience middleware they share:

- **Middleware** (`pkg/platform/middleware`): the retry interceptor, the
  circuit-breaker options, trip rule and outcome classification, the client
  and server rate limiters, and panic recovery. The breaker library and the
  token bucket are outside the model. Their answers (the breaker's state, its
  admission decision, `Wait`/`Allow`) are parameters.
- **In-memory stores**, as classes whose map fields the methods update:
  - the chat server's `ChatStorage` (with paging);
  - the friendship repository (keys `"a:b"` with reverse-key fallback);
  - the chat, token, auth and users repositories.
- **Domain models and validators**: friendships with `Accept`/`Reject`, chats
  with `AddMessage`, messages, auth tokens and their expiry, auth and users
  `User`s, and `NewFriendshipDto`.
- **Errors**:
  - a Go error chain as one datatype (`ErrorChain.Error`): sentinels, the
    friends and auth `AppError`s, `%w` wrapping and gRPC statuses, with
    `errors.Is` walking the chain;
  - the constructors of both error packages;
  - the two error-to-gRPC-code interceptors.
- **Mappers and use cases**:
  - the DTO-to-proto mappers of the friends and chat adapters;
  - the chat use cases' mappers;
  - `CreateChat`, `SendMessage`, `Login`, `Logout`, `CheckMultipleFriendships`
    and the users `GetByNickname`.

  Collaborators (clients, repositories, bcrypt, UUIDs, the clock) are
  parameters. Each result records the calls that were made.

Module `Wrappers` holds `Option`/`Result`, `GrpcCodes` the gRPC codes,
`Protos` the generated message types, `Uuids` the nil UUID and the textual
form of a version-4 UUID, `Strings` `strings.Join` and substring occurrence,
and `ServiceErrors` the constructors of the error packages the chat and users
services import. `IndexPairs` is the i < j double loop shared by two nested
loops in the source.

## Model

| member | source | states |
|---|---|---|
| Retry.CanRetry | pkg/platform/middleware/retry.go:59-67 | a call may be retried iff outgoing metadata is present and its first `x-idempotency-token` value is non-empty; `NoTokenNoRetry` proves a call without one is made exactly once |
| Retry.IsRetryableCode | pkg/platform/middleware/retry.go:69-79 | exactly Unavailable, DeadlineExceeded, ResourceExhausted, Aborted and Internal are retryable; `RetryBounds` proves every call before the last failed with one of them |
| Retry.RetryInterceptor | pkg/platform/middleware/retry.go:14-57 | the loop's error and number of invoker calls are those of the reference `Intercept`: one plain call without a token, otherwise attempts while the error is a retryable status and the context is live |
| Retry.AttemptsShape | pkg/platform/middleware/retry.go:27-55 | from any attempt on: at most maxRetries + 1 calls; every call followed by another failed retryably with the context live; the result is nil after a success, the call's error if it has no status or a non-retryable code, the context's error, or, once attempts run out, the last error, which is then retryable with the context still live |
| Retry.NoTokenNoRetry | pkg/platform/middleware/retry.go:23-25 | without an idempotency token the invoker is called exactly once and its error is returned unchanged |
| Retry.RetryBounds | pkg/platform/middleware/retry.go:27-55 | with a token: 1 to maxRetries + 1 calls, none and nil when maxRetries < 0; a non-status or non-retryable first error returns at once |
| Retry.RetrySuccess | pkg/platform/middleware/retry.go:33-36 | with a token the result is nil exactly when the last call made succeeded |
| CircuitBreaker.DefaultOptions | pkg/platform/middleware/circuit_breaker.go:26-44 | the default name, counts, durations, ratio 0.6 and server codes {Internal, Unavailable, DeadlineExceeded, ResourceExhausted, DataLoss, Unknown, Aborted} |
| CircuitBreaker.StringToCode | pkg/platform/middleware/circuit_breaker.go:94-135 | trims white space, upper-cases, then applies the switch: each listed spelling (with and without underscores, CANCELLED and CANCELED) selects its code and anything else Unknown; the five lemmas below prove this for all inputs |
| CircuitBreaker.ToUpperTrimSpace | pkg/platform/middleware/circuit_breaker.go:95 | trimming and upper-casing commute, because upper-casing never turns white space into anything else or anything else into white space |
| CircuitBreaker.StringToCodeIgnoresCase | pkg/platform/middleware/circuit_breaker.go:95 | two strings equal up to letter case convert to the same code, and an upper-cased string converts like the string itself |
| CircuitBreaker.StringToCodeAcceptsListed | pkg/platform/middleware/circuit_breaker.go:95-132 | every spelling the switch lists, in any letter case and with any surrounding white space, converts to the code the switch selects for it |
| CircuitBreaker.CodeOfUnlisted | pkg/platform/middleware/circuit_breaker.go:132-133 | a name outside the switch's list selects Unknown |
| CircuitBreaker.StringToCodeDefaultsToUnknown | pkg/platform/middleware/circuit_breaker.go:95-133 | a string whose trimmed, upper-cased form is not a listed spelling converts to Unknown |
| CircuitBreaker.StringToCodeIgnoresSpace | pkg/platform/middleware/circuit_breaker.go:94-135 | surrounding white space never changes the code a name converts to |
| CircuitBreaker.StringToCodeAcceptsCodeNames | pkg/platform/middleware/circuit_breaker.go:94-135 | every code's Go name converts back to that code |
| CircuitBreaker.ConvertServerErrorCodes | pkg/platform/middleware/circuit_breaker.go:78-86 | the loop builds exactly the set of converted codes |
| CircuitBreaker.BuildOptions | pkg/platform/middleware/circuit_breaker.go:137-142 | the options are the defaults with each option applied in order |
| CircuitBreaker.LaterOptionWins | pkg/platform/middleware/circuit_breaker.go:48-92 | for any options before it, and any after it of other kinds, an option's own field ends up holding the option's value |
| CircuitBreaker.OptionTouchesOnlyItsField | pkg/platform/middleware/circuit_breaker.go:48-92 | adding an option anywhere changes no field of another kind, and an option followed later by one of its kind has no effect at all |
| CircuitBreaker.Apply | pkg/platform/middleware/circuit_breaker.go:48-92 | one option sets its own field to its value (WithServerErrorCodes: the whole set of converted codes) and keeps every field of another kind |
| CircuitBreaker.ApplyAllAppend | pkg/platform/middleware/circuit_breaker.go:137-142 | applying two option lists in a row is applying their concatenation |
| CircuitBreaker.OtherOptionsKeepCodes | pkg/platform/middleware/circuit_breaker.go:48-92 | options other than WithServerErrorCodes never change the server error codes |
| CircuitBreaker.ServerCodesFromLastOption | pkg/platform/middleware/circuit_breaker.go:78-86 | the server error codes are exactly those of the last WithServerErrorCodes option, whatever the defaults were |
| CircuitBreaker.ReadyToTrip | pkg/platform/middleware/circuit_breaker.go:149-152 | trips iff requests >= MinRequests and failures / requests >= FailureRatio, where 0/0 (NaN) never trips and x/0 (+Inf) always does; `ReadyToTripThreshold`, `ReadyToTripMonotone` and `DefaultTrip` prove its properties |
| CircuitBreaker.ReadyToTripThreshold | pkg/platform/middleware/circuit_breaker.go:149-152 | with requests > 0 the breaker trips iff requests >= MinRequests and failures >= ratio × requests |
| CircuitBreaker.ReadyToTripMonotone | pkg/platform/middleware/circuit_breaker.go:149-152 | more failures over the same requests never un-trip the breaker |
| CircuitBreaker.DefaultTrip | pkg/platform/middleware/circuit_breaker.go:149-152 | with the defaults the breaker trips iff at least 40 requests and at least 60% failed |
| CircuitBreaker.TranslateBreakerError | pkg/platform/middleware/circuit_breaker.go:190-201 | ErrOpenState becomes Unavailable, ErrTooManyRequests ResourceExhausted, anything else passes unchanged |
| CircuitBreaker.IsServerError | pkg/platform/middleware/circuit_breaker.go:180-182 | a failed call counts as a breaker failure iff its error carries no gRPC status or its status code is a configured server error code; `Intercept` and `DefaultClassification` state the consequences |
| CircuitBreaker.Intercept | pkg/platform/middleware/circuit_breaker.go:160-209 | Open fails fast with Unavailable and no call; the invoker runs iff admitted; nil iff it succeeded; a non-status or configured code counts as a failure and any other status as a success; a failure matching gobreaker's ErrOpenState or ErrTooManyRequests is translated to Unavailable or ResourceExhausted, every other error is returned unchanged; a rejection by Execute itself (open or too many requests) gives Unavailable "circuit breaker is open" or ResourceExhausted "circuit breaker: too many requests" |
| CircuitBreaker.DefaultClassification | pkg/platform/middleware/circuit_breaker.go:173-199 | with the defaults NotFound passes as a success, Unavailable as a failure, a half-open rejection becomes ResourceExhausted |
| RateLimiter.ClientIntercept | pkg/platform/middleware/rate_limiter.go:19-30 | the invoker runs iff Wait succeeds and its error is returned; otherwise ResourceExhausted "client-side rate limit exceeded" |
| RateLimiter.ServerLimiter.constructor | pkg/platform/middleware/rate_limiter.go:32-40 | an empty method map, no global limiter, the given defaults |
| RateLimiter.ServerLimiter.WithMethodLimit | pkg/platform/middleware/rate_limiter.go:51-57 | a fresh limiter for that method only; every other entry and the global limiter unchanged; returns the receiver |
| RateLimiter.ServerLimiter.WithGlobalLimit | pkg/platform/middleware/rate_limiter.go:59-62 | a fresh global limiter; the method map unchanged; returns the receiver |
| RateLimiter.ServerLimiter.Intercept | pkg/platform/middleware/rate_limiter.go:64-90 | global rejection first (map untouched), then a default limiter is inserted only for a method without one and existing entries are kept; the handler runs iff both admit, and its result is returned |
| PanicRecoverer.Recover | pkg/platform/middleware/panic_recoverer.go:12-24 | a normal return passes unchanged; any panic gives a nil response and Internal "Internal server error" |
| ChatServer.Wrap32 | chat-service/internal/server/server.go:123 | Go's int32 conversion: identity in range, two's-complement wrap above it |
| ChatServer.Page | chat-service/internal/server/server.go:126-146 | the intended page: a contiguous run starting at the clamped offset whose length is the smaller of the effective limit and what remains of the list; empty iff the offset is past the end |
| ChatServer.PagesTile | chat-service/internal/server/server.go:134-146 | two consecutive pages together are the run of the list they cover |
| ChatServer.PageAsWritten | chat-service/internal/server/server.go:126-146 | the paging exactly as written: limit defaulting to 20, offset clamped at 0, the end computed as an int32 sum that wraps, and None where `msgs[start:end]` panics; `PageAsWrittenAgrees` and `PageOverflowWitness` relate it to `Page` |
| ChatServer.PageAsWrittenAgrees | chat-service/internal/server/server.go:135-146 | the code as written returns the intended page except exactly when offset + limit overflows int32 on a non-empty page, where it panics |
| ChatServer.PageOverflowWitness | chat-service/internal/server/server.go:136 | offset 1, limit MaxInt32, two messages: the code as written panics, the intended page is the second message |
| ChatServer.ChatStorage.constructor | chat-service/internal/server/server.go:39-44 | both maps empty |
| ChatServer.ChatStorage.CreateChat | chat-service/internal/server/server.go:46-59 | stores a fresh chat under the id (replacing any) and resets that id's messages to empty; nothing else changes |
| ChatServer.ChatStorage.GetChat | chat-service/internal/server/server.go:61-67 | the stored chat iff there is one |
| ChatServer.ChatStorage.GetUserChats | chat-service/internal/server/server.go:69-96 | each chat listing the user exactly once, with its participants, and with its last stored message when it has messages |
| ChatServer.ChatStorage.Listing | chat-service/internal/server/server.go:79-88 | a chat with stored messages is listed as a fresh copy carrying its last message; any other chat as the stored object |
| ChatServer.ChatStorage.AddMessage | chat-service/internal/server/server.go:98-112 | appends to the chat's list (creating it), sets LastMessage only when the chat exists, no other chat changes |
| ChatServer.ChatStorage.GetMessages | chat-service/internal/server/server.go:114-147 | unknown chat: empty and 0; otherwise the intended page and the full count |
| ChatServer.FirstNonFriends | chat-service/internal/server/server.go:219-231 | the first pair, in loop order, whose check fails or is not ACCEPTED |
| ChatServer.FirstNonFriendsMeaning | chat-service/internal/server/server.go:219-231 | the first refused pair is one of the pairs; none iff no pair is refused |
| ChatServer.FirstUnknownUser | chat-service/internal/server/server.go:211-217 | the first participant whose profile lookup fails; none iff all are found |
| ChatServer.CreateChatCheckMeaning | chat-service/internal/server/server.go:204-231 | the handler's checks pass iff at least 2 participants, all profiles found and every pair ACCEPTED |
| ChatServer.ChatServiceServer.CreateChat | chat-service/internal/server/server.go:199-242 | a failed check returns its error and stores nothing; otherwise a fresh chat with those participants is stored under the new id |
| ChatServer.ChatServiceServer.SendMessage | chat-service/internal/server/server.go:265-312 | unknown chat NotFound, non-participant PermissionDenied, both storing nothing; otherwise the message is appended and becomes LastMessage, and the response carries it with Success true and "Message sent successfully" |
| ChatServer.ChatServiceServer.GetChatHistory | chat-service/internal/server/server.go:314-337 | unknown chat NotFound; otherwise the page and the total count |
| ChatServer.ChatServiceServer.GetUserChats | chat-service/internal/server/server.go:244-263 | a profile error becomes NotFound "user not found: …"; otherwise every chat listing the user exactly once, each with its stored participants and, when it has messages, a fresh copy carrying its last message |
| ChatServer.Contains | chat-service/internal/server/server.go:76-91 | the participant scan finds the user iff listed |
| ChatServer.FindNonFriends | chat-service/internal/server/server.go:219-232 | the nested loops stop at exactly the first refused pair |
| ChatServer.ScanRow | chat-service/internal/server/server.go:220-230 | the inner loop for participant i stops at the first later participant refused with i, every earlier one accepted; it runs to the end iff none is refused |
| ChatServer.FoundFirstNonFriends | chat-service/internal/server/server.go:219-231 | where the inner loop stops is the first refused pair of all pairs |
| IndexPairs.AllPairsFacts | friends-service/internal/app/usecases/friendship/check_multiple_friendships.go:34-35 | the i < j double loop visits exactly the pairs i < j < n, in lexicographic order, n(n-1)/2 of them |
| FriendshipModel.CheckNewFriendship | friends-service/internal/app/models/friend.go:28-34 | empty userID before empty friendID, both InvalidInput; none iff both non-empty |
| FriendshipModel.Friendship.constructor | friends-service/internal/app/models/friend.go:36-44 | REQUESTED, createdAt == updatedAt == now |
| FriendshipModel.Friendship.Accept | friends-service/internal/app/models/friend.go:47-50 | from any status to ACCEPTED, updatedAt refreshed; ids are constants |
| FriendshipModel.Friendship.Reject | friends-service/internal/app/models/friend.go:52-55 | from any status to REJECTED, updatedAt refreshed |
| FriendshipModel.NewFriendship | friends-service/internal/app/models/friend.go:28-45 | the check's error and no friendship, or a fresh REQUESTED friendship with the given ids |
| FriendshipModel.StatusPredicatesExclusive | friends-service/internal/app/models/friend.go:57-67 | for the three statuses exactly one predicate holds; for any other none |
| FriendshipRepository.NonFriendPairsMembers | friends-service/internal/app/repositories/in_memory/friendship_memory.go:153-172 | the pairs are exactly (main, o) for listed o not friends in either direction; empty iff all are friends |
| FriendshipRepository.FriendshipRepository.constructor | friends-service/internal/app/repositories/in_memory/friendship_memory.go:22-30 | an empty store |
| FriendshipRepository.StoredLoggerAsWritten | friends-service/internal/app/repositories/in_memory/friendship_memory.go:22-30 | as written, the logger field is nil whatever logger is passed |
| FriendshipRepository.StoredLogger | friends-service/internal/app/repositories/in_memory/friendship_memory.go:22-25 | the evidently intended field: never nil, and the given logger when there is one |
| FriendshipRepository.NilLoggerPanics | friends-service/internal/app/repositories/in_memory/friendship_memory.go:32-140 | as written, a call panics exactly when it gets past its argument checks, so every Create panics |
| FriendshipRepository.StoredLoggerNeverPanics | friends-service/internal/app/repositories/in_memory/friendship_memory.go:22-30 | with the logger stored, no call panics |
| FriendshipRepository.FriendshipRepository.Create | friends-service/internal/app/repositories/in_memory/friendship_memory.go:32-50 | AlreadyExists iff the forward key is taken, map unchanged, the text being "friendship already exists%!(EXTRA string=<userID>, string=<friendID>)"; otherwise only that key is added |
| FriendshipRepository.FriendshipRepository.GetByUserIDs | friends-service/internal/app/repositories/in_memory/friendship_memory.go:52-76 | equal ids InvalidInput with the four extra operands ("userID1", id, "userID2", id) rendered as `%!(EXTRA …)`; else the forward record, else the reverse one, else (nil, nil) |
| FriendshipRepository.FriendshipRepository.GetAllFriendships | friends-service/internal/app/repositories/in_memory/friendship_memory.go:78-93 | exactly the stored records with the user on either side, one per key |
| FriendshipRepository.FriendshipRepository.Resolve | friends-service/internal/app/repositories/in_memory/friendship_memory.go:99-110 | the forward key if stored, else the reverse key, else none |
| FriendshipRepository.FriendshipRepository.Update | friends-service/internal/app/repositories/in_memory/friendship_memory.go:95-117 | overwrites only the resolved key; NotFound, with both ids rendered as `%!(EXTRA …)`, changes nothing |
| FriendshipRepository.FriendshipRepository.Delete | friends-service/internal/app/repositories/in_memory/friendship_memory.go:119-140 | removes only the resolved key; NotFound, with both ids rendered as `%!(EXTRA …)`, changes nothing |
| FriendshipRepository.FriendshipRepository.CheckFriendships | friends-service/internal/app/repositories/in_memory/friendship_memory.go:142-179 | fewer than 2 ids: (nil, true, InvalidInput) whose text ends in `%!(EXTRA string=userIDs, []string=[…])`; otherwise the non-friend pairs in input order and allAreFriends iff there are none |
| CheckMultipleFriendships.OtherEnd | friends-service/internal/app/usecases/friendship/check_multiple_friendships.go:24-27 | the recipient, or the requestor when the recipient is the user |
| CheckMultipleFriendships.FirstLookupError | friends-service/internal/app/usecases/friendship/check_multiple_friendships.go:12-16 | none iff every lookup succeeds; otherwise one of the lookups' errors |
| CheckMultipleFriendships.FirstErrorAt | friends-service/internal/app/usecases/friendship/check_multiple_friendships.go:12-16 | the error returned is that of the first failing lookup |
| CheckMultipleFriendships.CheckMultipleFriendships | friends-service/internal/app/usecases/friendship/check_multiple_friendships.go:9-53 | the result is the reference `Check`: the first lookup error, or the selected pairs |
| CheckMultipleFriendships.BuildFriendMap | friends-service/internal/app/usecases/friendship/check_multiple_friendships.go:10-31 | the first loop stops at the first lookup error or builds the reference friend map |
| CheckMultipleFriendships.AddAccepted | friends-service/internal/app/usecases/friendship/check_multiple_friendships.go:22-30 | the inner loop adds exactly the other ends of the accepted records |
| CheckMultipleFriendships.CollectPairs | friends-service/internal/app/usecases/friendship/check_multiple_friendships.go:33-50 | the double loop emits the reference selection over all pairs i < j |
| CheckMultipleFriendships.CollectRow | friends-service/internal/app/usecases/friendship/check_multiple_friendships.go:35-49 | the inner loop for user i appends, in order, the pairs (i, j) for j > i whose second user is not recorded under the first |
| CheckMultipleFriendships.FriendMapMeaning | friends-service/internal/app/usecases/friendship/check_multiple_friendships.go:18-30 | a user is in the map iff queried; b is recorded under a iff some accepted record of a has b at its other end |
| CheckMultipleFriendships.SelectedMembers | friends-service/internal/app/usecases/friendship/check_multiple_friendships.go:39-48 | a pair is emitted iff it is listed and user2 is not in user1's recorded friends |
| CheckMultipleFriendships.SelectedSound | friends-service/internal/app/usecases/friendship/check_multiple_friendships.go:34-48 | every emitted pair is (ids[i], ids[j]) with i < j and user2 not recorded under user1 |
| CheckMultipleFriendships.SelectedComplete | friends-service/internal/app/usecases/friendship/check_multiple_friendships.go:39-48 | every i < j whose user2 is not recorded under user1 is emitted |
| CheckMultipleFriendships.SelectedBound | friends-service/internal/app/usecases/friendship/check_multiple_friendships.go:33-52 | at most n(n-1)/2 pairs |
| CheckMultipleFriendships.FewUsersNoPairs | friends-service/internal/app/usecases/friendship/check_multiple_friendships.go:33-52 | fewer than 2 ids give no pairs |
| FriendshipDtos.NewFriendshipDto | friends-service/internal/app/ports/usecases.go:29-63 | a DTO holding exactly the arguments iff no field is empty or zero (avatar excepted); otherwise InvalidInput naming the first missing field |
| FriendshipDtos.FieldOrder | friends-service/internal/app/ports/usecases.go:31-51 | fields are checked in the order id, requestorID, recipientID, friendsNickName, status, createdAt, updatedAt |
| ChatModel.CheckNewMessage | chat-service/internal/app/models/chat.go:44-49 | empty author before empty content, both InvalidInput; none iff both non-empty |
| ChatModel.NewMessage | chat-service/internal/app/models/chat.go:43-58 | the check's error, or a message holding the arguments, the new id and now |
| ChatModel.Chat.constructor | chat-service/internal/app/models/chat.go:33-40 | the given id and participants, no messages, created and updated now |
| ChatModel.Chat.AddMessage | chat-service/internal/app/models/chat.go:112-119 | nil gives InvalidInput with the chat unchanged; otherwise the message is appended and updatedAt refreshed |
| ChatModel.NewChat | chat-service/internal/app/models/chat.go:28-41 | only an empty participant list is refused; otherwise a fresh chat with those participants and no messages |
| ChatModel.NewIdsNotEmpty | chat-service/internal/app/models/chat.go:68-70 | a generated (version-4) id is never the nil UUID |
| ChatRepository.ChatRepository.constructor | chat-service/internal/app/repositories/in_memory/chat_repository.go:19-29 | both maps empty |
| ChatRepository.ChatRepository.Create | chat-service/internal/app/repositories/in_memory/chat_repository.go:31-47 | NewChat's error with nothing stored; otherwise the chat and an empty message list stored under its id |
| ChatRepository.ChatRepository.Get | chat-service/internal/app/repositories/in_memory/chat_repository.go:49-67 | each stored chat listing the user, exactly once |
| ChatRepository.Lists | chat-service/internal/app/repositories/in_memory/chat_repository.go:57-62 | the participant scan finds the user iff listed |
| ChatRepository.ChatRepository.SendMessage | chat-service/internal/app/repositories/in_memory/chat_repository.go:69-91 | unknown chat NotFound, invalid message its error, both changing nothing; otherwise appended to the repository list and to the chat, the message stamped with the first clock reading (chat.go:56) and the chat's update time with the second (chat.go:117) |
| ChatRepository.ChatRepository.GetMessages | chat-service/internal/app/repositories/in_memory/chat_repository.go:93-107 | never an error; the chat's messages, or nil for an unknown chat |
| ChatUseCases.MessageDtos | chat-service/internal/app/usecases/chat/mapper.go:39-53 | one DTO per message, in order, fields copied |
| ChatUseCases.MessageDtosLoseNothing | chat-service/internal/app/usecases/chat/mapper.go:39-53 | each message can be read back from its DTO; the mapping is injective |
| ChatUseCases.MapMessagesToDto | chat-service/internal/app/usecases/chat/mapper.go:39-53 | the loop builds `MessageDtos` |
| ChatUseCases.MapChatsToDto | chat-service/internal/app/usecases/chat/mapper.go:10-37 | one DTO per chat in order, fields copied; a failing message lookup gives that chat no messages and the loop goes on |
| ChatUseCases.CreateChatChecks | chat-service/internal/app/usecases/chat/create.go:19-52 | which client calls the checks make: none with fewer than 2 participants, the friendship check only after all profiles were found |
| ChatUseCases.CreateChatChecksMeaning | chat-service/internal/app/usecases/chat/create.go:19-52 | the checks pass iff ≥ 2 participants, profiles found and all friends; each failure gives its documented error (wrapped client error, NotFound listing ids joined by ", ", the check's error, Forbidden naming the first pair or the generic message) |
| ChatUseCases.WrappingPreservesChainAll | chat-service/internal/app/usecases/chat/create.go:28 | the `%w`-wrapped client error matches exactly the sentinels the client error matches |
| ChatUseCases.CreateChat | chat-service/internal/app/usecases/chat/create.go:16-76 | a failed check returns its error before the repository is asked; a repository error comes back as "failed to create chat: …" still matching the repository's error, with no DTO; otherwise the DTO has the created chat's id, participants, timestamps and no messages |
| ChatUseCases.SendMessage | chat-service/internal/app/usecases/chat/send_message.go:12-62 | no call before the three InvalidInput checks pass; then profile lookup, chat-id parse, repository, in that order; success iff all three succeed |
| ChatUseCases.SendMessageMeaning | chat-service/internal/app/usecases/chat/send_message.go:15-58 | the checks in order, each collaborator's error propagated unchanged, and on success the stored message's fields |
| ChatAdapters.MessageToProto | chat-service/internal/app/adapters/in/grpc/get_chat_history.go:30-41 | id, author, content and timestamp copied |
| ChatAdapters.ChatToProto | chat-service/internal/app/adapters/in/grpc/get_user_chats.go:29-44 | id and participants copied; LastMessage is the final DTO message, nil iff there are none |
| ChatAdapters.MapDtoToProto | chat-service/internal/app/adapters/in/grpc/get_user_chats.go:25-48 | one proto chat per DTO, in order |
| ChatAdapters.LastMessageIsLastStored | chat-service/internal/app/adapters/in/grpc/get_user_chats.go:29-39 | for DTOs built by the mapper, LastMessage is the last stored message |
| ChatAdapters.GetUserChats | chat-service/internal/app/adapters/in/grpc/get_user_chats.go:11-23 | a use-case error with a nil response; otherwise the mapped chats |
| ChatAdapters.DtoToProto | chat-service/internal/app/adapters/in/grpc/get_chat_history.go:30-41 | one proto message per DTO, in order |
| ChatAdapters.GetChatHistory | chat-service/internal/app/adapters/in/grpc/get_chat_history.go:11-28 | a use-case error with a nil response; otherwise the mapped messages and TotalMessages equal to their number (as int32) |
| FriendsAdapters.MapStatusToProto | friends-service/internal/app/adapters/in/grpc/get_friends.go:37-48 | each of the three status names maps to its enum, and only it; anything else UNSPECIFIED |
| FriendsAdapters.StatusRoundTrip | friends-service/internal/app/adapters/in/grpc/get_friends.go:37-48 | status name → enum → name is the identity on the three statuses, and enum → name → enum on the three enums |
| FriendsAdapters.ToFriendInfo | friends-service/internal/app/adapters/in/grpc/get_friends.go:19-29 | UserId is the recipient, the status mapped, the other fields copied |
| FriendsAdapters.GetFriendsList | friends-service/internal/app/adapters/in/grpc/get_friends.go:10-35 | a use-case error with a nil response; otherwise one FriendInfo per DTO, in order |
| FriendsAdapters.FirstInvolving | friends-service/internal/app/adapters/in/grpc/check_friendship_status.go:24-31 | the first DTO whose recipient or requestor is the friend; none iff there is none |
| FriendsAdapters.CheckFriendshipStatus | friends-service/internal/app/adapters/in/grpc/check_friendship_status.go:10-38 | a use-case error with a nil response; the first match's status and timestamps, or UNSPECIFIED and no timestamps |
| FriendsAdapters.CheckFriendshipsStatus | friends-service/internal/app/adapters/in/grpc/check_friendships_status.go:9-32 | the ids passed unchanged; an error with a nil response; one proto pair per pair, in order; AllAreFriends iff there are none |
| Strings.Sprintf | friends-service/pkg/errors/errors.go:76 | a verb-free format comes back unchanged when no operands are given; otherwise it is followed by one `%!(EXTRA …)` group closed by ")" |
| Strings.SprintfMentionsOperands | friends-service/pkg/errors/errors.go:76 | every extra operand appears in the text with its Go type (`string=…`, `[]string=[…]`) |
| FriendsErrors.ErrorText | friends-service/pkg/errors/errors.go:47-55 | the message, else the wrapped error's text, else "unknown error" |
| FriendsErrors.UnwrapApp | friends-service/pkg/errors/errors.go:57-59 | the wrapped error |
| FriendsErrors.WithDetails | friends-service/pkg/errors/errors.go:61-67 | creates the map if absent, sets only that key, keeps every other field |
| FriendsErrors.NewNotFoundError | friends-service/pkg/errors/errors.go:73-79 | code NOT_FOUND, wraps ErrNotFound only, not retriable |
| FriendsErrors.NewAlreadyExistsError | friends-service/pkg/errors/errors.go:81-87 | code ALREADY_EXISTS, wraps ErrAlreadyExists only |
| FriendsErrors.NewUnauthorizedError | friends-service/pkg/errors/errors.go:89-95 | code UNAUTHORIZED, wraps ErrUnauthorized only |
| FriendsErrors.NewForbiddenError | friends-service/pkg/errors/errors.go:97-103 | code FORBIDDEN, wraps ErrForbidden only |
| FriendsErrors.NewInvalidInputError | friends-service/pkg/errors/errors.go:105-111 | code INVALID_INPUT, wraps ErrInvalidInput only |
| FriendsErrors.NewValidationError | friends-service/pkg/errors/errors.go:113-119 | code VALIDATION, wraps ErrValidation only |
| FriendsErrors.NewInternalError | friends-service/pkg/errors/errors.go:121-127 | code INTERNAL, wraps the given error, matching exactly its sentinels |
| FriendsErrors.NewTimeoutError | friends-service/pkg/errors/errors.go:129-135 | code TIMEOUT, wraps ErrTimeout only |
| FriendsErrors.NewTokenError | friends-service/pkg/errors/errors.go:137-143 | code TOKEN, wraps the given error |
| FriendsErrors.NewServiceError | friends-service/pkg/errors/errors.go:145-151 | code SERVICE, wraps the given error |
| AuthErrors.ErrorText | auth-service/pkg/errors/errors.go:36-38 | code, ": ", message |
| AuthErrors.UnwrapApp | auth-service/pkg/errors/errors.go:41-43 | the wrapped error |
| AuthErrors.NewNotFoundError | auth-service/pkg/errors/errors.go:60-66 | code NOT_FOUND around ErrNotFound |
| AuthErrors.NewAlreadyExistsError | auth-service/pkg/errors/errors.go:69-75 | code ALREADY_EXISTS around ErrAlreadyExists |
| AuthErrors.NewUnauthorizedError | auth-service/pkg/errors/errors.go:78-84 | code UNAUTHORIZED around ErrUnauthorized |
| AuthErrors.NewInvalidInputError | auth-service/pkg/errors/errors.go:87-93 | code INVALID_INPUT around ErrInvalidInput |
| AuthErrors.NewInternalError | auth-service/pkg/errors/errors.go:96-102 | code INTERNAL around the given error, matching exactly its sentinels |
| AuthErrors.GetErrorCode | auth-service/pkg/errors/errors.go:105-111 | the code of the auth AppError `errors.As` finds by unwrapping, else "UNKNOWN"; `GetErrorCodeFindsFirst` and `ConstructorCodes` prove it |
| AuthErrors.GetErrorCodeFindsFirst | auth-service/pkg/errors/errors.go:105-111 | listing the chain as the error followed by what `Unwrap` reaches: the code of the first AppError in that list, "UNKNOWN" when it holds none, and `%w` wrapping does not change it |
| AuthErrors.ConstructorCodes | auth-service/pkg/errors/errors.go:60-111 | each constructor's error reports its own code |
| FriendsErrorsInterceptor.MapCode | friends-service/internal/middleware/grpc/errors_interceptors.go:25-45 | the first matching case of the switch, Internal iff no sentinel case matches |
| FriendsErrorsInterceptor.Intercept | friends-service/internal/middleware/grpc/errors_interceptors.go:12-52 | no error or a status error pass unchanged; otherwise a nil response and a status with the mapped code and the error's text |
| FriendsErrorsInterceptor.InterceptIdempotent | friends-service/internal/middleware/grpc/errors_interceptors.go:21-23 | applying the interceptor twice is applying it once |
| FriendsErrorsInterceptor.ConstructorCodes | friends-service/internal/middleware/grpc/errors_interceptors.go:25-45 | each constructor's error maps to its documented code |
| FriendsErrorsInterceptor.FirstCaseWins | friends-service/internal/middleware/grpc/errors_interceptors.go:26-45 | a chain matching several sentinels takes the earliest case |
| AuthErrorsInterceptor.MapCode | auth-service/internal/middleware/grpc/errors_interceptors.go:29-50 | first-match code: Unauthorized, TokenExpired and InvalidToken are Unauthenticated, the database and service errors Unavailable, Internal iff nothing matches |
| AuthErrorsInterceptor.TimeoutIsInternal | auth-service/internal/middleware/grpc/errors_interceptors.go:44-50 | a timeout has no case and falls to Internal |
| AuthErrorsInterceptor.EntriesMentionAll | auth-service/internal/middleware/grpc/errors_interceptors.go:59-62 | every key's "k: v; " entry occurs in the accumulated text |
| AuthErrorsInterceptor.EntriesEmpty | auth-service/internal/middleware/grpc/errors_interceptors.go:59-63 | the accumulated text is empty iff there are no keys |
| AuthErrorsInterceptor.DetailsText | auth-service/internal/middleware/grpc/errors_interceptors.go:59-62 | the loop visits each key once, in some order; the text holds every detail's "k: v; " entry and is empty iff there are no details |
| AuthErrorsInterceptor.Intercept | auth-service/internal/middleware/grpc/errors_interceptors.go:14-73 | no error or a status error pass unchanged; otherwise a nil response, the mapped code, and the text alone or followed by " [Details: …]" listing every detail key once when there are details |
| AuthErrorsInterceptor.DetailsAllShown | auth-service/internal/middleware/grpc/errors_interceptors.go:53-65 | every detail appears in the message |
| AuthModels.CheckNewAuthToken | auth-service/internal/app/models/token.go:17-27 | empty token, then zero expiry, then empty user id; none iff all are set |
| AuthModels.NewAuthToken | auth-service/internal/app/models/token.go:16-46 | the check's error, or a token holding exactly the arguments |
| AuthModels.IsExpired | auth-service/internal/app/models/token.go:52-54 | a token is expired iff the current instant is strictly after its expiry; `ExpiryIsFinal` proves its properties |
| AuthModels.ExpiryIsFinal | auth-service/internal/app/models/token.go:52-54 | not expired at its own expiry instant; once expired, expired at every later instant |
| AuthModels.CheckNewUser | auth-service/internal/app/models/user.go:19-30 | empty id, username, email, password, in that order; none iff all are set |
| AuthModels.NewUser | auth-service/internal/app/models/user.go:18-37 | the check's error, or a user holding exactly the arguments |
| TokenRepository.TokenRepository.constructor | auth-service/internal/app/repositories/auth/in_memory/token_repository.go:21-31 | no tokens |
| TokenRepository.TokenRepository.Create | auth-service/internal/app/repositories/auth/in_memory/token_repository.go:33-55 | a stored token or a failed validation returns an error and stores nothing; otherwise the token is stored under its string and returned |
| TokenRepository.TokenRepository.FindToken | auth-service/internal/app/repositories/auth/in_memory/token_repository.go:57-71 | the token, or "" with "token not found" |
| TokenRepository.TokenRepository.ValidateToken | auth-service/internal/app/repositories/auth/in_memory/token_repository.go:73-92 | valid iff no error iff stored and not expired; never (false, nil) |
| TokenRepository.TokenRepository.DeleteToken | auth-service/internal/app/repositories/auth/in_memory/token_repository.go:94-109 | missing token an error with nothing changed; otherwise only that key removed |
| AuthRepository.AuthRepository.constructor | auth-service/internal/app/repositories/auth/in_memory/auth_repository.go:24-28 | an empty store |
| AuthRepository.AuthRepository.FindUserByEmail | auth-service/internal/app/repositories/auth/in_memory/auth_repository.go:54-72 | a stored user whose username is the argument iff there is one; otherwise the "not found" error |
| AuthRepository.AuthRepository.Create | auth-service/internal/app/repositories/auth/in_memory/auth_repository.go:30-40 | refused, nothing changed, iff a stored username equals the new user's email; otherwise stored under its id, overwriting |
| AuthRepository.AuthRepository.FindUserByID | auth-service/internal/app/repositories/auth/in_memory/auth_repository.go:42-52 | the user, or "user not found" |
| AuthRepository.AuthRepository.Update | auth-service/internal/app/repositories/auth/in_memory/auth_repository.go:74-85 | replaces only an existing id; otherwise "user not found" and nothing changed |
| AuthRepository.ReacquireBlocks | auth-service/internal/app/repositories/auth/in_memory/auth_repository.go:31-34 | locking a non-reentrant mutex that is already held blocks whatever follows |
| AuthRepository.RunPrefix | auth-service/internal/app/repositories/auth/in_memory/auth_repository.go:31-34 | running a prefix of lock steps and then the rest is running them all |
| AuthRepository.CreateDeadlocks | auth-service/internal/app/repositories/auth/in_memory/auth_repository.go:31-34 | Create's lock steps as written block; the corrected ones finish with the mutex released |
| AuthUseCases.Login | auth-service/internal/app/usecases/auth/login.go:14-46 | which calls are made: the lookup first; on its error nothing else; then the password comparison; no token stored after a mismatch |
| AuthUseCases.LoginMeaning | auth-service/internal/app/usecases/auth/login.go:17-45 | lookup and save errors propagate with no token; a mismatch is "invalid credentials"; the token expires at now + TTL; the returned token is the repository's |
| AuthUseCases.InvalidTokenError | auth-service/internal/app/usecases/auth/logout.go:21-22 | a token error wrapping ErrInvalidToken with the token in its details |
| AuthUseCases.Logout | auth-service/internal/app/usecases/auth/logout.go:10-33 | validation first; DeleteToken called iff the token validated; nil iff valid and deleted |
| AuthUseCases.LogoutErrors | auth-service/internal/app/usecases/auth/logout.go:13-32 | a validation error is returned alone, invalid gives the token error, a delete error is propagated |
| AuthUseCases.LogoutWithRepositoryAnswers | auth-service/internal/app/usecases/auth/logout.go:13-29 | with the token repository's answers Logout returns the validation error, else the delete error |
| UsersModel.IsEmpty | users-service/internal/app/models/user.go:42-44 | an id is empty iff it is the nil UUID; `CheckNewUser` refuses exactly such ids |
| UsersModel.CheckNewUser | users-service/internal/app/models/user.go:19-31 | empty id, nickname, email, in that order, as InvalidInput; none iff all are set |
| UsersModel.NewUser | users-service/internal/app/models/user.go:18-40 | the check's error, or a user holding exactly the arguments |
| UsersModel.OptionalFieldsOptional | users-service/internal/app/models/user.go:33-39 | empty description and avatar never stop a user being built |
| UsersModel.ParseUserID | users-service/internal/app/models/user.go:50-57 | an unparsable text is InvalidInput naming it; otherwise the parsed id |
| UsersRepository.UserRepository.constructor | users-service/internal/app/repositories/user/in_memory/users_repository.go:22-31 | no users |
| UsersRepository.UserRepository.Create | users-service/internal/app/repositories/user/in_memory/users_repository.go:33-48 | a taken id is AlreadyExists naming the nickname, the nil id, nothing changed; otherwise the user is inserted and its id returned |
| UsersRepository.UserRepository.Get | users-service/internal/app/repositories/user/in_memory/users_repository.go:50-65 | the user, or NotFound naming the id |
| UsersRepository.UserRepository.GetByNickname | users-service/internal/app/repositories/user/in_memory/users_repository.go:67-82 | a stored user with that nickname iff there is one; otherwise NotFound naming the nickname |
| UsersRepository.UserRepository.Update | users-service/internal/app/repositories/user/in_memory/users_repository.go:84-98 | replaces only an existing id; otherwise NotFound and nothing changed |
| UsersUseCases.GetByNickname | users-service/internal/app/usecases/user/get_by_nickname.go:10-34 | an empty nickname is InvalidInput with no repository call; otherwise the repository is asked with the nickname unchanged and its error returned as is |
| UsersUseCases.GetByNicknameCopiesUser | users-service/internal/app/usecases/user/get_by_nickname.go:24-30 | the DTO is the repository's user field for field |
| Logger.FormatArgs | pkg/platform/logger/logger.go:151-167 | the loop builds the reference rendering of the arguments |
| Logger.OddTrailingIgnored | pkg/platform/logger/logger.go:157-158 | an odd trailing argument is ignored |
| Logger.RenderAppend | pkg/platform/logger/logger.go:156-166 | the output is the in-order concatenation of the pairs' contributions |
| Logger.NonStringPairSkipped | pkg/platform/logger/logger.go:159-163 | a pair with a non-string element contributes nothing |
| Logger.StringPairRendered | pkg/platform/logger/logger.go:159-163 | a pair of strings contributes "key=value " |
| Logger.MockLogger.constructor | pkg/platform/logger/logger.go:203-205 | no entries |
| Logger.MockLogger.Debug | pkg/platform/logger/logger.go:207 | appends exactly "DEBUG: " + msg |
| Logger.MockLogger.Info | pkg/platform/logger/logger.go:208 | appends exactly "INFO: " + msg |
| Logger.MockLogger.Warn | pkg/platform/logger/logger.go:209 | appends exactly "WARN: " + msg |
| Logger.MockLogger.Error | pkg/platform/logger/logger.go:210 | appends exactly "ERROR: " + msg |
| Logger.MockLogger.With | pkg/platform/logger/logger.go:211 | returns the same logger |
| Logger.MockLogger.Fatal | pkg/platform/logger/logger.go:212 | appends exactly "FATAL: " + msg and does not exit |
| Logger.MockLogger.DebugContext | pkg/platform/logger/logger.go:214-216 | the same entry as Debug |
| Logger.MockLogger.InfoContext | pkg/platform/logger/logger.go:217 | the same entry as Info |
| Logger.MockLogger.WarnContext | pkg/platform/logger/logger.go:218 | the same entry as Warn |
| Logger.MockLogger.ErrorContext | pkg/platform/logger/logger.go:219-221 | the same entry as Error |
| Logger.MockLogger.FatalContext | pkg/platform/logger/logger.go:222-224 | the same entry as Fatal |
| Logger.MockLogger.WithContext | pkg/platform/logger/logger.go:225 | returns the same logger |

## Left out

- Locking (`sync.Mutex`/`RWMutex`) is not modelled; every call is sequential. The one consequence that matters, the re-locking in the auth in-memory `Create`, is modelled as lock steps (see Findings).
- Logging side effects are not modelled, except `MockLogger` and the friendship repository's nil logger field (see Findings). The repository methods model the corrected constructor, so they leave logging out.
- The gobreaker state machine and the `golang.org/x/time/rate` token bucket are libraries whose source is not part of this model. The breaker's reported state, its admission decision and a limiter's `Wait`/`Allow` answers are parameters. No admission-rate or recovery bound is claimed.
- CircuitBreaker.ReadyToTrip: the float ratio is compared exactly as a rational, so float rounding is not modelled. With no requests the 0/0 = NaN and x/0 = +Inf cases follow Go's float semantics.
- CircuitBreaker.StringToCode: `unicode.ToUpper` is modelled only for characters whose upper case is ASCII (a-z, dotless i, long s). Any other character is kept, which cannot change which switch case matches.
- Time is an integer instant with 0 as Go's zero time. `time.Now`, `time.After`, the retry delay and token TTL arithmetic are parameters or plain addition. `models.NewChat` reads `time.Now()` twice (chat-service/internal/app/models/chat.go:38-39), so its createdAt and updatedAt may differ by the time between the reads. ChatModel.NewChat and ChatModel.Chat.constructor take one `now` for both and set them equal.
- UUID generation and parsing and bcrypt hashing are parameters. A generated id is only assumed to have the textual form of a version-4 UUID.
- `context.Context` parameters are dropped. The retry loop's choice between the context's Done channel and the timer is a parameter.
- `fmt.Sprintf`/`%v` formatting is modelled by string concatenation for string arguments, and by `Strings.Sprintf` for a format without verbs given extra operands (strings and string slices only), which appends Go's `%!(EXTRA …)` group. The users `GetByNickname` use case passes "nickname" to a users-service constructor whose source is not part of this model; the model keeps "nickname" as the message.
- Details maps of the users, chat and platform errors are dropped. chat-service/pkg/errors, users-service/pkg/errors and pkg/platform/errors are not part of this model. Their constructors are modelled (module `ServiceErrors`) as an error whose text is the message and that matches exactly the constructor's sentinel.
- FriendsErrors.WithDetails: the source mutates the receiver and returns it, so aliases see the change. The model returns an updated value, and aliasing is not captured.
- The auth errors interceptor and `Logout` use symbols (`ErrTokenExpired`, `ErrInvalidToken`, `ErrForbidden`, `ErrServiceUnavailable`, `GetErrorDetails`, `NewTokenError`, `WithDetails`) that auth-service/pkg/errors does not define. The model takes the sentinels from the shared taxonomy, the details map as a parameter of the interceptor, and `NewTokenError`/`WithDetails` from friends-service/pkg/errors, whose functions of those names exist.
- The Go map iteration order of the auth interceptor's details loop, the repositories' search loops and `GetAllFriendships` is left open. The methods' contracts hold for every order.
- The chat use cases call `models.ParseChatID` and a repository `SendMessage` returning a message, which the chat model and repository do not provide. Both are parameters of the model's `SendMessage`.
- The friendship use case calls a repository `GetFriends` that the in-memory repository does not have. Its answer is a parameter returning `FriendRecord`s with requestor, recipient and acceptance.
- Nil versus empty Go slices are not distinguished; both are the empty sequence.
- The auth `User` password is kept as a string, not bytes.
- Request validation (`s.validator.Validate`) in the chat server handlers is a library call and is not modelled; the handlers start after it.
- ChatUseCases.CreateChat: `create` stands for the repository call inside the transaction closure. Errors the transaction manager raises itself (starting a session, committing) are not modelled, because its source is not part of this model.
- Network, database, Kafka, tracing, metrics, configuration loading, stub servers, thin forwarding adapters and transaction managers are not modelled.
- auth-service/internal/app/usecases/auth_usecase.go (an older duplicate) and the auth `Register` use case are not part of this model.

## Findings

| source | as written | input that shows it | evidently intended | confidence | as-written member | corrected member |
|---|---|---|---|---|---|---|
| chat-service/internal/server/server.go:136 | `end := int(offset + limit)` adds two int32 values before widening, so the sum wraps | offset 1, limit 2147483647, a chat with two messages: end wraps to a negative value and `msgs[1:end]` panics | the page from the offset up to offset + limit, cut at the end of the list | not executed | ChatServer.PageOverflowWitness | ChatServer.Page |
| auth-service/internal/app/repositories/auth/in_memory/auth_repository.go:31-34 | `Create` locks `r.mx` and then calls `FindUserByEmail`, which locks the same non-reentrant mutex again | any call to `Create`, even on an empty repository | the lookup runs under the single lock that `Create` already holds | not executed | AuthRepository.CreateDeadlocks | AuthRepository.AuthRepository.Create |
| friends-service/internal/app/repositories/in_memory/friendship_memory.go:22-30 | `NewFriendshipRepository` replaces a nil logger in its parameter but never stores any logger, so the `logger` field stays nil and every `r.logger.Info` dereferences it | any `Create` on a repository built with any logger | the field holds the given logger, or the replacement for nil | not executed | FriendshipRepository.NilLoggerPanics | FriendshipRepository.StoredLoggerNeverPanics |
