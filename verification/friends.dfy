/**
 * The friends page: the user's friend connections turned into the ids of
 * the other parties, then into the list of friend profiles shown.
 */
module Friends {
  import opened Wrappers

  /** A friendship row: the two users it links. */
  datatype Connection = Connection(user1: string, user2: string)

  /** The profile fields the page shows. */
  datatype FriendProfile = FriendProfile(
    userId: string, fullName: Option<string>, avatarUrl: Option<string>, universityName: Option<string>)

  /** The id on the other side of a connection, as the page picks it:
      `user2` when `user1` is the user, else `user1`. */
  function OtherParty(conn: Connection, me: string): string {
    if conn.user1 == me then conn.user2 else conn.user1
  }

  /** The connection links `me` to someone else. */
  predicate LinksToOther(conn: Connection, me: string) {
    (conn.user1 == me || conn.user2 == me) && conn.user1 != conn.user2
  }

  /** For a connection linking the user to someone else, the picked id is
      that someone: one of the two ends and not the user. */
  lemma OtherPartyIsTheOtherEnd(conn: Connection, me: string)
    requires LinksToOther(conn, me)
    ensures OtherParty(conn, me) != me
    ensures {OtherParty(conn, me), me} == {conn.user1, conn.user2}
  {
  }

  /** One id per connection, in the same order. */
  function FriendIds(conns: seq<Connection>, me: string): (r: seq<string>)
    ensures |r| == |conns|
    ensures forall k :: 0 <= k < |conns| ==> r[k] == OtherParty(conns[k], me)
  {
    seq(|conns|, k requires 0 <= k < |conns| => OtherParty(conns[k], me))
  }

  /** When every connection links the user to someone else, the user is not
      among the friend ids, and each id is the far end of its connection. */
  lemma FriendIdsExcludeSelf(conns: seq<Connection>, me: string)
    requires forall k :: 0 <= k < |conns| ==> LinksToOther(conns[k], me)
    ensures me !in FriendIds(conns, me)
    ensures forall k :: 0 <= k < |conns| ==>
      {FriendIds(conns, me)[k], me} == {conns[k].user1, conns[k].user2}
  {
    forall k | 0 <= k < |conns|
      ensures FriendIds(conns, me)[k] != me
      ensures {FriendIds(conns, me)[k], me} == {conns[k].user1, conns[k].user2}
    {
      OtherPartyIsTheOtherEnd(conns[k], me);
    }
  }

  /** The answer to the connections query: an error, or the rows (possibly none at all). */
  datatype ConnectionsResult = QueryError(message: string) | Rows(data: Option<seq<Connection>>)

  /** What `fetchFriends` ends with: the list shown, and the ids the profile
      lookup was made for, when it was made. */
  datatype FetchOutcome = FetchOutcome(friends: seq<FriendProfile>, lookup: Option<seq<string>>)

  /** `fetchFriends`, with the profile lookup's answer as `profiles`: a query
      error leaves the list as it was; no connections empties it without a
      lookup; otherwise the lookup is made for the friend ids and its answer,
      when there is one, becomes the list. */
  function FetchFriends(friends: seq<FriendProfile>, me: string, result: ConnectionsResult,
                        profiles: Option<seq<FriendProfile>>): (r: FetchOutcome)
    ensures result.QueryError? ==> r == FetchOutcome(friends, None)
    ensures result.Rows? && (result.data.None? || result.data.value == []) ==> r == FetchOutcome([], None)
    ensures result.Rows? && result.data.Some? && result.data.value != [] ==>
      && r.lookup == Some(FriendIds(result.data.value, me))
      && r.friends == (if profiles.Some? then profiles.value else friends)
  {
    match result
    case QueryError(_) => FetchOutcome(friends, None)
    case Rows(data) =>
      if data.None? || |data.value| == 0 then FetchOutcome([], None)
      else
        var ids := FriendIds(data.value, me);
        FetchOutcome(if profiles.Some? then profiles.value else friends, Some(ids))
  }

  /** A lookup is made exactly when there is at least one connection, and it
      asks for one id per connection. */
  lemma LookupIffConnections(friends: seq<FriendProfile>, me: string, result: ConnectionsResult,
                             profiles: Option<seq<FriendProfile>>)
    ensures var r := FetchFriends(friends, me, result, profiles);
      && (r.lookup.Some? <==> result.Rows? && result.data.Some? && |result.data.value| > 0)
      && (r.lookup.Some? ==> |r.lookup.value| == |result.data.value|)
  {
  }
}
