/**
 * friends-service/internal/app/usecases/friendship/check_multiple_friendships.go:
 * looks up each user's friendships, records the accepted ones per user, then
 * lists the pairs (ids[i], ids[j]), i < j, whose second user is not an
 * accepted friend of the first.
 *
 * The repository's `GetFriends` answer for each user is a parameter; of each
 * record the use case reads only its two ends and whether it is accepted.
 */
module CheckMultipleFriendships {
  import opened Wrappers
  import opened ErrorChain
  import opened IndexPairs
  import opened FriendshipRepository

  /** The parts of a friendship record the use case reads. */
  datatype FriendRecord = FriendRecord(requestorID: string, recipientID: string, accepted: bool)

  /** The repository's answer to `GetFriends(userID)`. */
  type Lookup = string -> Result<seq<FriendRecord>, Error>

  /** The end of a record that is not the queried user: the recipient, unless that is the user. */
  function OtherEnd(r: FriendRecord, userID: string): (o: string)
    ensures r.recipientID != userID ==> o == r.recipientID
    ensures r.recipientID == userID ==> o == r.requestorID
  {
    if r.recipientID == userID then r.requestorID else r.recipientID
  }

  /** The other ends of a user's accepted records. */
  function AcceptedFriends(recs: seq<FriendRecord>, userID: string): set<string>
  {
    set k | 0 <= k < |recs| && recs[k].accepted :: OtherEnd(recs[k], userID)
  }

  /** The first lookup, in id order, that fails. */
  function FirstLookupError(ids: seq<string>, lookup: Lookup): (r: Option<Error>)
    ensures r.None? <==> forall k :: 0 <= k < |ids| ==> lookup(ids[k]).Ok?
    ensures r.Some? ==> exists k :: 0 <= k < |ids| && lookup(ids[k]) == Err(r.value)
  {
    if ids == [] then None
    else if lookup(ids[0]).Err? then Some(lookup(ids[0]).error)
    else
      var r := FirstLookupError(ids[1..], lookup);
      assert forall k :: 1 <= k < |ids| ==> ids[k] == ids[1..][k - 1];
      r
  }

  /** The `friendshipMap` the first loop builds: each looked-up user's accepted friends. */
  function FriendMap(ids: seq<string>, lookup: Lookup): map<string, set<string>>
  {
    map id | id in ids && lookup(id).Ok? :: AcceptedFriends(lookup(id).value, id)
  }

  /** Whether the pair of positions q is reported: its second user is not recorded as a friend of its first. */
  predicate Reported(ids: seq<string>, fm: map<string, set<string>>, q: (nat, nat))
  {
    q.0 < |ids| && q.1 < |ids| && !(ids[q.0] in fm && ids[q.1] in fm[ids[q.0]])
  }

  /** The reported pairs among `ps`, in order, as user pairs. */
  function Selected(ids: seq<string>, fm: map<string, set<string>>, ps: seq<(nat, nat)>): seq<UserPair>
  {
    if ps == [] then []
    else
      var q := ps[|ps| - 1];
      Selected(ids, fm, ps[..|ps| - 1]) + (if Reported(ids, fm, q) then [UserPair(ids[q.0], ids[q.1])] else [])
  }

  /** The use case's result: the first lookup error, or the reported pairs in loop order. */
  function Check(ids: seq<string>, lookup: Lookup): Result<seq<UserPair>, Error>
  {
    if FirstLookupError(ids, lookup).Some? then Err(FirstLookupError(ids, lookup).value)
    else Ok(Selected(ids, FriendMap(ids, lookup), AllPairs(|ids|)))
  }

  /** `CheckMultipleFriendships(userIDs)`: the lookup phase, then the pair phase. */
  method CheckMultipleFriendships(ids: seq<string>, lookup: Lookup) returns (pairs: seq<UserPair>, err: Option<Error>)
    ensures err.Some? ==> pairs == [] && Check(ids, lookup) == Err(err.value)
    ensures err.None? ==> Check(ids, lookup) == Ok(pairs)
  {
    var fm;
    fm, err := BuildFriendMap(ids, lookup);
    if err.Some? {
      return [], err;
    }
    pairs := CollectPairs(ids, fm);
  }

  /** The first loop: look up each user in turn, stop at the first error, record accepted friends. */
  method BuildFriendMap(ids: seq<string>, lookup: Lookup) returns (fm: map<string, set<string>>, err: Option<Error>)
    ensures err == FirstLookupError(ids, lookup)
    ensures err.None? ==> fm == FriendMap(ids, lookup)
  {
    fm := map[];
    var i := 0;
    while i < |ids|
      invariant 0 <= i <= |ids|
      invariant FirstLookupError(ids[..i], lookup).None?
      invariant fm == FriendMap(ids[..i], lookup)
    {
      var userID := ids[i];
      var friends := lookup(userID);
      if friends.Err? {
        FirstErrorAt(ids, lookup, i);
        return fm, Some(friends.error);
      }
      var before := if userID in fm then fm[userID] else {};
      var after := AddAccepted(before, userID, friends.value);
      FriendMapStep(ids, lookup, i, before);
      fm := fm[userID := after];
      FirstLookupErrorAppend(ids[..i], [userID], lookup);
      assert ids[..i + 1] == ids[..i] + [userID];
      i := i + 1;
    }
    assert ids[..i] == ids;
    return fm, None;
  }

  /** The inner loop of the first phase: add the other end of each accepted record to the user's set. */
  method AddAccepted(before: set<string>, userID: string, recs: seq<FriendRecord>) returns (after: set<string>)
    ensures after == before + AcceptedFriends(recs, userID)
  {
    after := before;
    var k := 0;
    assert AcceptedFriends(recs[..0], userID) == {};
    while k < |recs|
      invariant 0 <= k <= |recs|
      invariant after == before + AcceptedFriends(recs[..k], userID)
    {
      AcceptedFriendsSnoc(recs, k, userID);
      if recs[k].accepted {
        var otherID := recs[k].recipientID;
        if otherID == userID {
          otherID := recs[k].requestorID;
        }
        after := after + {otherID};
      }
      k := k + 1;
    }
    assert recs[..k] == recs;
  }

  /** The second phase: the i < j double loop over positions, skipping recorded friends. */
  method CollectPairs(ids: seq<string>, fm: map<string, set<string>>) returns (pairs: seq<UserPair>)
    ensures pairs == Selected(ids, fm, AllPairs(|ids|))
  {
    var n := |ids|;
    pairs := [];
    var i := 0;
    while i < n
      invariant 0 <= i <= n
      invariant pairs == Selected(ids, fm, PairsBefore(n, i))
    {
      pairs := CollectRow(ids, fm, i, PairsBefore(n, i), pairs);
      i := i + 1;
    }
  }

  /** The inner loop for user i: pairs it with each later user that is not a recorded friend. */
  method CollectRow(ids: seq<string>, fm: map<string, set<string>>, i: nat, ghost ps: seq<(nat, nat)>,
                    pairs0: seq<UserPair>) returns (pairs: seq<UserPair>)
    requires i < |ids| && pairs0 == Selected(ids, fm, ps)
    ensures pairs == Selected(ids, fm, ps + Row(|ids|, i))
  {
    var n := |ids|;
    pairs := pairs0;
    var j := i + 1;
    assert ps + Row(n, i)[..0] == ps;
    while j < n
      invariant i + 1 <= j <= n
      invariant pairs == Selected(ids, fm, ps + Row(n, i)[..j - i - 1])
    {
      var user1 := ids[i];
      var user2 := ids[j];
      CollectStep(ids, fm, ps, n, i, j);
      if !(user1 in fm && user2 in fm[user1]) {
        pairs := pairs + [UserPair(user1, user2)];
      }
      j := j + 1;
    }
    assert Row(n, i)[..j - i - 1] == Row(n, i);
  }

  /** A failing lookup after successful ones is the first lookup error. */
  lemma FirstErrorAt(ids: seq<string>, lookup: Lookup, i: nat)
    requires i < |ids| && FirstLookupError(ids[..i], lookup).None? && lookup(ids[i]).Err?
    ensures FirstLookupError(ids, lookup) == Some(lookup(ids[i]).error)
  {
    FirstLookupErrorAppend(ids[..i], ids[i..], lookup);
    assert ids == ids[..i] + ids[i..];
    assert ids[i..][0] == ids[i];
  }

  lemma {:induction false} FirstLookupErrorAppend(a: seq<string>, b: seq<string>, lookup: Lookup)
    requires FirstLookupError(a, lookup).None?
    ensures FirstLookupError(a + b, lookup) == FirstLookupError(b, lookup)
    decreases |a|
  {
    if a == [] {
      assert a + b == b;
    } else {
      assert (a + b)[1..] == a[1..] + b;
      assert lookup(a[0]).Ok?;
      FirstLookupErrorAppend(a[1..], b, lookup);
    }
  }

  lemma AcceptedFriendsSnoc(recs: seq<FriendRecord>, k: nat, userID: string)
    requires k < |recs|
    ensures AcceptedFriends(recs[..k + 1], userID) ==
      AcceptedFriends(recs[..k], userID) + (if recs[k].accepted then {OtherEnd(recs[k], userID)} else {})
  {
    var a, b := recs[..k + 1], recs[..k];
    assert forall m :: 0 <= m < k ==> a[m] == b[m];
    assert a[k] == recs[k];
  }

  /** One more successful lookup extends the map by that user's accepted friends (again, if the id repeats). */
  lemma FriendMapStep(ids: seq<string>, lookup: Lookup, i: nat, before: set<string>)
    requires i < |ids| && lookup(ids[i]).Ok?
    requires ids[i] in FriendMap(ids[..i], lookup) ==> before == FriendMap(ids[..i], lookup)[ids[i]]
    requires ids[i] !in FriendMap(ids[..i], lookup) ==> before == {}
    ensures FriendMap(ids[..i + 1], lookup) ==
      FriendMap(ids[..i], lookup)[ids[i] := before + AcceptedFriends(lookup(ids[i]).value, ids[i])]
  {
    var x := ids[i];
    var m0, m1 := FriendMap(ids[..i], lookup), FriendMap(ids[..i + 1], lookup);
    assert ids[..i + 1] == ids[..i] + [x];
    assert forall id :: id in ids[..i + 1] <==> id in ids[..i] || id == x;
    assert m1.Keys == m0.Keys + {x};
    forall id | id in m1 ensures m1[id] == m0[x := before + AcceptedFriends(lookup(x).value, x)][id] {
    }
  }

  /** One step of the inner loop of `CollectPairs`, stated for any bound n. */
  lemma CollectStep(ids: seq<string>, fm: map<string, set<string>>, ps: seq<(nat, nat)>, n: nat, i: nat, j: nat)
    requires i < j < n
    ensures Selected(ids, fm, ps + Row(n, i)[..j - i]) ==
      Selected(ids, fm, ps + Row(n, i)[..j - i - 1])
      + (if Reported(ids, fm, (i, j)) then [UserPair(ids[i], ids[j])] else [])
  {
    RowPrefixStep(n, i, j);
    SelectedSnoc(ids, fm, ps + Row(n, i)[..j - i - 1], (i, j));
    assert ps + Row(n, i)[..j - i] == (ps + Row(n, i)[..j - i - 1]) + [(i, j)];
  }

  lemma SelectedSnoc(ids: seq<string>, fm: map<string, set<string>>, ps: seq<(nat, nat)>, q: (nat, nat))
    ensures Selected(ids, fm, ps + [q]) ==
      Selected(ids, fm, ps) + (if Reported(ids, fm, q) then [UserPair(ids[q.0], ids[q.1])] else [])
  {
    assert (ps + [q])[..|ps|] == ps;
  }

  /** The selected pairs are exactly the user pairs of the reported positions in `ps`, and no more than `ps`. */
  lemma {:induction false} SelectedMembers(ids: seq<string>, fm: map<string, set<string>>, ps: seq<(nat, nat)>)
    ensures forall p :: p in Selected(ids, fm, ps) <==>
      exists q :: q in ps && Reported(ids, fm, q) && p == UserPair(ids[q.0], ids[q.1])
    ensures |Selected(ids, fm, ps)| <= |ps|
  {
    if ps != [] {
      var init, q := ps[..|ps| - 1], ps[|ps| - 1];
      SelectedMembers(ids, fm, init);
      assert ps == init + [q];
      assert forall x :: x in ps <==> x in init || x == q;
    }
  }

  /** Every reported pair is (ids[i], ids[j]) for some i < j whose second user is not a recorded friend of the first. */
  lemma SelectedSound(ids: seq<string>, fm: map<string, set<string>>, p: UserPair)
    requires p in Selected(ids, fm, AllPairs(|ids|))
    ensures exists i: nat, j: nat :: (i < j < |ids| && p == UserPair(ids[i], ids[j])
                                      && !(ids[i] in fm && ids[j] in fm[ids[i]]))
  {
    var all := AllPairs(|ids|);
    SelectedMembers(ids, fm, all);
    AllPairsFacts(|ids|);
    var q :| q in all && Reported(ids, fm, q) && p == UserPair(ids[q.0], ids[q.1]);
    assert q.0 < q.1 < |ids|;
  }

  /** Every such (ids[i], ids[j]) is reported. */
  lemma SelectedComplete(ids: seq<string>, fm: map<string, set<string>>, i: nat, j: nat)
    requires i < j < |ids| && !(ids[i] in fm && ids[j] in fm[ids[i]])
    ensures UserPair(ids[i], ids[j]) in Selected(ids, fm, AllPairs(|ids|))
  {
    var all := AllPairs(|ids|);
    SelectedMembers(ids, fm, all);
    AllPairsFacts(|ids|);
    assert (i, j) in all && Reported(ids, fm, (i, j));
  }

  /** At most n(n-1)/2 pairs are reported. */
  lemma SelectedBound(ids: seq<string>, fm: map<string, set<string>>)
    ensures 2 * |Selected(ids, fm, AllPairs(|ids|))| <= |ids| * (|ids| - 1)
  {
    SelectedMembers(ids, fm, AllPairs(|ids|));
    AllPairsFacts(|ids|);
  }

  /** A recorded friend is the other end of an accepted record the looked-up user got back. */
  lemma FriendMapMeaning(ids: seq<string>, lookup: Lookup, a: string, b: string)
    requires a in FriendMap(ids, lookup)
    ensures a in ids && lookup(a).Ok?
    ensures b in FriendMap(ids, lookup)[a] <==>
      exists r :: r in lookup(a).value && r.accepted && OtherEnd(r, a) == b
  {
    var recs := lookup(a).value;
    if b in FriendMap(ids, lookup)[a] {
      var k :| 0 <= k < |recs| && recs[k].accepted && OtherEnd(recs[k], a) == b;
      assert recs[k] in recs;
    }
  }

  /** With fewer than two users there are no pairs: the result is empty or the one lookup's error. */
  lemma FewUsersNoPairs(ids: seq<string>, lookup: Lookup)
    requires |ids| < 2
    ensures Check(ids, lookup).Ok? ==> Check(ids, lookup).value == []
    ensures |ids| == 0 ==> Check(ids, lookup) == Ok([])
  {
    assert Row(|ids|, 0) == [];
    if |ids| == 1 {
      assert PairsBefore(1, 1) == PairsBefore(1, 0) + Row(1, 0);
    }
  }
}
