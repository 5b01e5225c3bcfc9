/**
 * The friends-service gRPC adapters that shape use-case results into
 * responses: get_friends.go, check_friendship_status.go and
 * check_friendships_status.go under friends-service/internal/app/adapters/in/grpc.
 * `timestamppb.New(t)` is modelled as `Some(t)`; a nil timestamp is None.
 */
module FriendsAdapters {
  import opened Wrappers
  import opened ErrorChain
  import Protos
  import opened FriendshipDtos
  import FriendshipModel
  import FriendshipRepository

  /** `mapStatusToProto`. */
  function MapStatusToProto(status: string): (p: Protos.FriendshipStatus)
    ensures p == Protos.StatusRequested <==> status == "REQUESTED"
    ensures p == Protos.StatusAccepted <==> status == "ACCEPTED"
    ensures p == Protos.StatusRejected <==> status == "REJECTED"
  {
    match status
    case "REQUESTED" => Protos.StatusRequested
    case "ACCEPTED" => Protos.StatusAccepted
    case "REJECTED" => Protos.StatusRejected
    case _ => Protos.StatusUnspecified
  }

  /** The status string a proto enum value stands for ("" for UNSPECIFIED). */
  function ProtoStatusName(p: Protos.FriendshipStatus): string
  {
    match p
    case StatusUnspecified => ""
    case StatusRequested => FriendshipModel.StatusRequested
    case StatusAccepted => FriendshipModel.StatusAccepted
    case StatusRejected => FriendshipModel.StatusRejected
  }

  /** The three statuses a friendship can hold survive the mapping, and nothing else maps onto them. */
  lemma StatusRoundTrip(status: string, p: Protos.FriendshipStatus)
    ensures FriendshipModel.KnownStatus(status) ==> ProtoStatusName(MapStatusToProto(status)) == status
    ensures !FriendshipModel.KnownStatus(status) ==> MapStatusToProto(status) == Protos.StatusUnspecified
    ensures p != Protos.StatusUnspecified ==> MapStatusToProto(ProtoStatusName(p)) == p
  {
  }

  /** One response entry per DTO: the recipient's id, the profile fields, the mapped status, both times. */
  function ToFriendInfo(d: FriendshipDto): (f: Protos.FriendInfo)
    ensures f.userId == d.recipientID && f.status == MapStatusToProto(d.status)
    ensures f.nickname == d.friendsNickName && f.avatarUrl == d.friendsAvatarURL
    ensures f.createdAt == Some(d.createdAt) && f.updatedAt == Some(d.updatedAt)
  {
    Protos.FriendInfo(d.recipientID, d.friendsNickName, d.friendsAvatarURL, MapStatusToProto(d.status),
                      Some(d.createdAt), Some(d.updatedAt))
  }

  /** `GetFriendsList`, given the use case's answer. */
  method GetFriendsList(friends: Result<seq<FriendshipDto>, Error>) returns (resp: Option<seq<Protos.FriendInfo>>, err: Option<Error>)
    ensures friends.Err? ==> resp.None? && err == Some(friends.error)
    ensures friends.Ok? ==> err.None? && resp.Some? && |resp.value| == |friends.value|
    ensures friends.Ok? ==> forall k :: 0 <= k < |friends.value| ==> resp.value[k] == ToFriendInfo(friends.value[k])
  {
    if friends.Err? {
      return None, Some(friends.error);
    }
    var list := friends.value;
    var out: seq<Protos.FriendInfo> := [];
    for i := 0 to |list|
      invariant |out| == i
      invariant forall k :: 0 <= k < i ==> out[k] == ToFriendInfo(list[k])
    {
      out := out + [ToFriendInfo(list[i])];
    }
    return Some(out), None;
  }

  /** Whether a DTO involves the friend on either side. */
  predicate Involves(d: FriendshipDto, friendID: string)
  {
    d.recipientID == friendID || d.requestorID == friendID
  }

  /** The position of the first DTO involving the friend. */
  function FirstInvolving(ds: seq<FriendshipDto>, friendID: string): (r: Option<nat>)
    ensures r.Some? ==> r.value < |ds| && Involves(ds[r.value], friendID)
    ensures r.Some? ==> forall k :: 0 <= k < r.value ==> !Involves(ds[k], friendID)
    ensures r.None? <==> forall k :: 0 <= k < |ds| ==> !Involves(ds[k], friendID)
  {
    if ds == [] then None
    else if Involves(ds[0], friendID) then Some(0)
    else
      var r := FirstInvolving(ds[1..], friendID);
      assert forall k :: 1 <= k < |ds| ==> ds[k] == ds[1..][k - 1];
      if r.None? then None else Some(r.value + 1)
  }

  datatype StatusResponse = StatusResponse(status: Protos.FriendshipStatus, createdAt: Option<int>, updatedAt: Option<int>)

  /**
   * `CheckFriendshipStatus`, given the use case's answer: the first DTO that
   * involves the friend decides the status and both times; without one the
   * status is UNSPECIFIED and the times are nil.
   */
  method CheckFriendshipStatus(friendID: string, friends: Result<seq<FriendshipDto>, Error>)
    returns (resp: Option<StatusResponse>, err: Option<Error>)
    ensures friends.Err? ==> resp.None? && err == Some(friends.error)
    ensures friends.Ok? ==> err.None? && resp.Some?
    ensures friends.Ok? && FirstInvolving(friends.value, friendID).None? ==>
      resp == Some(StatusResponse(Protos.StatusUnspecified, None, None))
    ensures friends.Ok? && FirstInvolving(friends.value, friendID).Some? ==>
      var d := friends.value[FirstInvolving(friends.value, friendID).value];
      resp == Some(StatusResponse(MapStatusToProto(d.status), Some(d.createdAt), Some(d.updatedAt)))
  {
    if friends.Err? {
      return None, Some(friends.error);
    }
    var list := friends.value;
    var status := Protos.StatusUnspecified;
    var createdAt: Option<int> := None;
    var updatedAt: Option<int> := None;
    var i := 0;
    while i < |list|
      invariant 0 <= i <= |list|
      invariant forall k :: 0 <= k < i ==> !Involves(list[k], friendID)
      invariant status == Protos.StatusUnspecified && createdAt.None? && updatedAt.None?
    {
      if list[i].recipientID == friendID || list[i].requestorID == friendID {
        status := MapStatusToProto(list[i].status);
        createdAt := Some(list[i].createdAt);
        updatedAt := Some(list[i].updatedAt);
        break;
      }
      i := i + 1;
    }
    return Some(StatusResponse(status, createdAt, updatedAt)), None;
  }

  datatype PairsResponse = PairsResponse(nonFriendPairs: seq<Protos.UserPair>, allAreFriends: bool)

  /**
   * `CheckFriendshipsStatus`: hands the request's ids to the use case
   * unchanged, copies each returned pair in order, and reports "all friends"
   * exactly when no pair came back.
   */
  method CheckFriendshipsStatus(userIDs: seq<string>,
                                useCase: seq<string> -> Result<seq<FriendshipRepository.UserPair>, Error>)
    returns (resp: Option<PairsResponse>, err: Option<Error>)
    ensures useCase(userIDs).Err? ==> resp.None? && err == Some(useCase(userIDs).error)
    ensures useCase(userIDs).Ok? ==> err.None? && resp.Some?
    ensures useCase(userIDs).Ok? ==>
      var ps := useCase(userIDs).value;
      && |resp.value.nonFriendPairs| == |ps|
      && (forall k :: 0 <= k < |ps| ==>
            resp.value.nonFriendPairs[k] == Protos.UserPair(ps[k].userID1, ps[k].userID2))
      && (resp.value.allAreFriends <==> ps == [])
  {
    var result := useCase(userIDs);
    if result.Err? {
      return None, Some(result.error);
    }
    var pairs := result.value;
    var protoPairs: seq<Protos.UserPair> := [];
    for i := 0 to |pairs|
      invariant |protoPairs| == i
      invariant forall k :: 0 <= k < i ==> protoPairs[k] == Protos.UserPair(pairs[k].userID1, pairs[k].userID2)
    {
      protoPairs := protoPairs + [Protos.UserPair(pairs[i].userID1, pairs[i].userID2)];
    }
    return Some(PairsResponse(protoPairs, |pairs| == 0)), None;
  }
}
